/**
 * Matching device responses to waiting requests: SendRequest, HandlePacket,
 * removePending, CloseWithError and nextMessageID of internal/protocol/tcp/client.go.
 */
module RequestTable {
  import opened Basics
  import opened Coap

  const ID_COUNT := 0xffff

  /** A response packet, passed on by reference: the number of its arrival, and its contents. */
  datatype Response = Response(arrival: nat, packet: Packet)

  /** A response channel of capacity one. */
  datatype Channel = Channel(inbox: seq<Response>, closed: bool)

  /** A request in flight: its message ID, and whether it still waits at its channel. */
  datatype Waiter = Waiter(id: uint16, waiting: bool)

  /** A call of HandlePacket between its look-up, under the lock, and its send, without it. */
  datatype Held = Held(channel: nat, response: Response)

  /** A response that found a channel, and the requests in flight then. */
  datatype Arrival = Arrival(packet: Packet, channel: nat, inFlight: set<nat>)

  datatype Receipt = Receipt(channel: nat, response: Response)

  datatype Panic = SendOnClosed | CloseOfClosed

  /**
   * The client's maps from message ID and from token to a channel, the channels, the
   * requests in flight and the calls of HandlePacket under way, and what has arrived
   * and been received so far. A channel is named by how many IDs were issued before
   * it. A panic ends the program.
   */
  datatype Table = Table(
    nextId: uint32,
    issued: nat,
    pending: map<uint16, nat>,
    byToken: map<Bytes, nat>,
    channels: map<nat, Channel>,
    waiters: map<nat, Waiter>,
    handlers: map<nat, Held>,
    arrivals: seq<Arrival>,
    receipts: seq<Receipt>,
    panic: Option<Panic>)

  const EMPTY := Table(1, 0, map[], map[], map[], map[], map[], [], [], None)

  function TokenFor(id: uint16): Bytes {
    PutUint16(id)
  }

  // ---------------------------------------------------------------- message IDs

  /** The ID nextMessageID returns, and the counter it leaves. */
  function NextId(counter: uint32): (uint16, uint32)
    requires counter <= ID_COUNT
  {
    if counter + 1 > 0xffff then (1, 1) else (counter + 1, counter + 1)
  }

  /** The `k`-th ID a client issues: 2, 3, ..., 65535, 1, 2, ... */
  function IdAt(k: nat): (id: uint16)
    ensures 1 <= id
  {
    (k + 1) % ID_COUNT + 1
  }

  function CounterAfter(issued: nat): uint32 {
    if issued == 0 then 1 else IdAt(issued - 1)
  }

  lemma CounterFollowsIds(issued: nat)
    ensures CounterAfter(issued) <= ID_COUNT
    ensures NextId(CounterAfter(issued)) == (IdAt(issued), CounterAfter(issued + 1))
  {
  }

  /** Two IDs issued less than 65535 apart differ. */
  lemma IdsDifferInWindow(a: nat, b: nat)
    requires a < b < a + ID_COUNT
    ensures IdAt(a) != IdAt(b)
  {
  }

  /** Any 65535 IDs issued in a row are all the numbers from 1 to 65535, each once. */
  lemma WindowIsPermutation(start: nat, id: uint16)
    requires 1 <= id
    ensures exists k :: start <= k < start + ID_COUNT && IdAt(k) == id
    ensures forall j, k :: (start <= j < start + ID_COUNT && start <= k < start + ID_COUNT && IdAt(j) == id == IdAt(k)) ==> j == k
  {
    var k := start + (id - 1 - (start + 1)) % ID_COUNT;
    assert IdAt(k) == id;
    forall j, l | start <= j < start + ID_COUNT && start <= l < start + ID_COUNT && IdAt(j) == id == IdAt(l)
      ensures j == l
    {
      if j < l {
        IdsDifferInWindow(j, l);
      } else if l < j {
        IdsDifferInWindow(l, j);
      }
    }
  }

  /**
   * nextMessageID when several goroutines call it: the counter's increment and, past
   * the last ID, its reset are two steps; `resetting` are the callers in between.
   */
  datatype Counter = Counter(value: nat, resetting: set<nat>, ids: seq<int>)

  datatype CounterStep = Incremented(caller: nat) | Reset(caller: nat)

  function Step(c: Counter, step: CounterStep): Counter {
    match step
    case Incremented(caller) =>
      var next := c.value + 1;
      if caller in c.resetting then c
      else if next > 0xffff then c.(value := next, resetting := c.resetting + {caller})
      else c.(value := next, ids := c.ids + [next])
    case Reset(caller) =>
      if caller in c.resetting then Counter(1, c.resetting - {caller}, c.ids + [1]) else c
  }

  function Count(steps: seq<CounterStep>): Counter {
    if steps == [] then Counter(1, {}, []) else Step(Count(steps[..|steps| - 1]), steps[|steps| - 1])
  }

  /** No caller increments the counter while another is about to reset it. */
  predicate ResetsAlone(steps: seq<CounterStep>) {
    forall k :: 0 <= k < |steps| && steps[k].Incremented? ==> Count(steps[..k]).resetting == {}
  }

  /** Then the IDs are issued in sequence, however the callers alternate. */
  lemma {:induction false} IdsAreIssuedInSequence(steps: seq<CounterStep>)
    requires ResetsAlone(steps)
    ensures var c := Count(steps);
            && (forall k :: 0 <= k < |c.ids| ==> c.ids[k] == IdAt(k))
            && (if c.resetting == {} then c.value == CounterAfter(|c.ids|)
                else c.value == 0x1_0000 && IdAt(|c.ids|) == 1 && exists caller :: c.resetting == {caller})
    decreases |steps|
  {
    if steps != [] {
      var before := steps[..|steps| - 1];
      assert forall k :: 0 <= k <= |before| ==> before[..k] == steps[..k];
      assert forall k :: 0 <= k < |before| ==> before[k] == steps[k];
      IdsAreIssuedInSequence(before);
      hide Count;
      var c, step := Count(before), steps[|steps| - 1];
      CounterFollowsIds(|c.ids|);
      assert step.Incremented? ==> c.resetting == {};
      if step.Incremented? && c.value + 1 > 0xffff {
        assert Step(c, step).resetting == {step.caller};
      }
    }
  }

  predicate InSequence(ids: seq<int>) {
    forall k :: 0 <= k < |ids| ==> ids[k] == IdAt(k)
  }

  /** The counter is reset only while the last ID, 65535, is the latest one issued. */
  predicate ResetsOnTime(steps: seq<CounterStep>) {
    forall k :: 0 <= k < |steps| ==> OnTime(Count(steps[..k]), steps[k])
  }

  predicate OnTime(c: Counter, step: CounterStep) {
    step.Reset? && step.caller in c.resetting ==> c.ids != [] && c.ids[|c.ids| - 1] == ID_COUNT
  }

  /** Below the reset the counter holds the latest ID issued. */
  predicate HoldsLatest(c: Counter) {
    1 <= c.value && (c.value <= ID_COUNT ==> c.value == if c.ids == [] then 1 else c.ids[|c.ids| - 1])
  }

  /** That is exactly when the IDs are issued in sequence. */
  lemma {:induction false} InSequenceExactly(steps: seq<CounterStep>)
    ensures InSequence(Count(steps).ids) <==> ResetsOnTime(steps)
    ensures HoldsLatest(Count(steps))
    decreases |steps|
  {
    hide Step, OnTime, InSequence, HoldsLatest;
    if steps == [] {
      NothingIssued();
    } else {
      var before, step := steps[..|steps| - 1], steps[|steps| - 1];
      InSequenceExactly(before);
      StepInSequence(Count(before), step);
      OneMoreOnTime(steps);
    }
  }

  lemma NothingIssued()
    ensures InSequence(Count([]).ids) && HoldsLatest(Count([]))
  {
  }

  lemma OneMoreOnTime(steps: seq<CounterStep>)
    requires steps != []
    ensures var before := steps[..|steps| - 1];
            ResetsOnTime(steps) <==> ResetsOnTime(before) && OnTime(Count(before), steps[|before|])
  {
    hide Count, OnTime;
    var before := steps[..|steps| - 1];
    assert forall k :: 0 <= k <= |before| ==> before[..k] == steps[..k];
    assert forall k :: 0 <= k < |before| ==> before[k] == steps[k];
  }

  lemma StepInSequence(c: Counter, step: CounterStep)
    requires HoldsLatest(c)
    ensures InSequence(Step(c, step).ids) <==> InSequence(c.ids) && OnTime(c, step)
    ensures HoldsLatest(Step(c, step))
  {
    var ids, after := c.ids, Step(c, step).ids;
    if InSequence(ids) {
      CounterFollowsIds(|ids|);
      assert ids != [] ==> ids[|ids| - 1] == IdAt(|ids| - 1);
    } else {
      var k :| 0 <= k < |ids| && ids[k] != IdAt(k);
      assert after[k] == ids[k];
    }
  }

  /** Two callers that meet at the last ID are both given 1. */
  lemma MeetingAtTheResetRepeats(c: Counter, a: nat, b: nat)
    requires c.value == 0xffff && c.resetting == {} && a != b
    ensures Step(Step(Step(Step(c, Incremented(a)), Incremented(b)), Reset(a)), Reset(b)).ids == c.ids + [1, 1]
  {
  }

  /** The two bytes of a default token give its ID back. */
  lemma TokensDiffer(a: uint16, b: uint16)
    requires TokenFor(a) == TokenFor(b)
    ensures a == b
  {
    Uint16RoundTrip(a);
    Uint16RoundTrip(b);
  }

  // ---------------------------------------------------------------- steps

  predicate IsResponse(packet: Packet) {
    packet.typ == ACKNOWLEDGEMENT || packet.typ == RESET || packet.code >= 65
  }

  /** SendMessage takes an ID but waits for nothing. */
  function TakeId(t: Table): Table
    requires t.nextId <= ID_COUNT
  {
    t.(nextId := NextId(t.nextId).1, issued := t.issued + 1)
  }

  /** SendRequest up to its wait: a fresh ID, a fresh channel, and both entries. */
  function Begin(t: Table): Table
    requires t.nextId <= ID_COUNT
  {
    var id := NextId(t.nextId).0;
    TakeId(t).(
      pending := t.pending[id := t.issued],
      byToken := t.byToken[TokenFor(id) := t.issued],
      channels := t.channels[t.issued := Channel([], false)],
      waiters := t.waiters[t.issued := Waiter(id, true)])
  }

  /** The channel a response goes to: by message ID, or else by token. */
  function LookUp(t: Table, packet: Packet): Option<nat> {
    if packet.messageId in t.pending then Some(t.pending[packet.messageId])
    else if packet.token in t.byToken then Some(t.byToken[packet.token])
    else None
  }

  /** The first half of HandlePacket: under the lock, a response finds its channel. */
  function Find(t: Table, handler: nat, packet: Packet): Table {
    if handler in t.handlers || !IsResponse(packet) || LookUp(t, packet).None? then t
    else
      var channel := LookUp(t, packet).value;
      t.(handlers := t.handlers[handler := Held(channel, Response(|t.arrivals|, packet))],
         arrivals := t.arrivals + [Arrival(packet, channel, t.waiters.Keys)])
  }

  /** The second half: a send that does not block, dropped when the channel is full, a panic when it is closed. */
  function Offer(t: Table, handler: nat): Table {
    if handler !in t.handlers || t.handlers[handler].channel !in t.channels then t
    else
      var Held(c, response) := t.handlers[handler];
      var channel := t.channels[c];
      t.(handlers := t.handlers - {handler},
         panic := if channel.closed then Some(SendOnClosed) else t.panic,
         channels := if channel.closed || channel.inbox != [] then t.channels
                     else t.channels[c := channel.(inbox := [response])])
  }

  /** A waiting request takes the packet in its channel, and waits no more. */
  function Receive(t: Table, channel: nat): Table {
    if channel in t.waiters && channel in t.channels && t.waiters[channel].waiting && t.channels[channel].inbox != [] then
      t.(channels := t.channels[channel := t.channels[channel].(inbox := [])],
         waiters := t.waiters[channel := t.waiters[channel].(waiting := false)],
         receipts := t.receipts + [Receipt(channel, t.channels[channel].inbox[0])])
    else t
  }

  /** The request returns, for whatever reason, and removePending drops its two keys. */
  function End(t: Table, channel: nat): Table {
    if channel !in t.waiters then t
    else
      var id := t.waiters[channel].id;
      t.(pending := t.pending - {id}, byToken := t.byToken - {TokenFor(id)}, waiters := t.waiters - {channel})
  }

  function Closing(channels: map<nat, Channel>, closing: set<nat>): map<nat, Channel> {
    map c | c in channels :: if c in closing then channels[c].(closed := true) else channels[c]
  }

  /** Closes the channels of all pending requests and empties both maps. */
  function CloseAll(t: Table): Table {
    t.(
      pending := map[],
      byToken := map[],
      channels := Closing(t.channels, t.pending.Values),
      panic := if exists c :: c in t.pending.Values && c in t.channels && t.channels[c].closed then Some(CloseOfClosed)
               else t.panic)
  }

  datatype Event =
    | Requested
    | MessageSent
    | PacketArrived(handler: nat, packet: Packet)
    | Offered(handler: nat)
    | Received(channel: nat)
    | Ended(channel: nat)
    | Closed

  function Apply(t: Table, e: Event): Table
    requires t.nextId <= ID_COUNT
  {
    if t.panic.Some? then t
    else
      match e
      case Requested => Begin(t)
      case MessageSent => TakeId(t)
      case PacketArrived(handler, packet) => Find(t, handler, packet)
      case Offered(handler) => Offer(t, handler)
      case Received(channel) => Receive(t, channel)
      case Ended(channel) => End(t, channel)
      case Closed => CloseAll(t)
  }

  function Execute(events: seq<Event>): (t: Table)
    ensures t.nextId <= ID_COUNT
  {
    if events == [] then EMPTY else Apply(Execute(events[..|events| - 1]), events[|events| - 1])
  }

  /** No request in flight is as old as the 65535th ID before the next one. */
  predicate Young(t: Table) {
    forall c :: c in t.waiters ==> t.issued < c + ID_COUNT
  }

  predicate AlwaysYoung(events: seq<Event>) {
    forall k :: 0 <= k < |events| ==> Young(Execute(events[..k]))
  }

  // ---------------------------------------------------------------- invariant

  /** Every request in flight has the ID it was issued and a channel. */
  ghost predicate Owned(t: Table) {
    && (forall c :: c in t.waiters ==> c < t.issued && t.waiters[c].id == IdAt(c) && c in t.channels)
    && (forall c :: c in t.channels ==> c < t.issued)
  }

  /** The first map holds only requests in flight whose channel was not closed. */
  ghost predicate Mapped(t: Table) {
    forall id :: id in t.pending ==> HoldsRequest(t, id)
  }

  /** And it holds all of them. */
  ghost predicate AllMapped(t: Table) {
    forall c :: c in t.waiters && c in t.channels && !t.channels[c].closed ==>
      t.waiters[c].id in t.pending && t.pending[t.waiters[c].id] == c
  }

  ghost predicate HoldsRequest(t: Table, id: uint16)
    requires id in t.pending
  {
    var c := t.pending[id];
    c in t.waiters && t.waiters[c].id == id && c in t.channels && !t.channels[c].closed
  }

  /** The second map holds the same channels under the tokens made from the IDs. */
  ghost predicate Mirrored(t: Table) {
    && (forall id: uint16 :: id in t.pending ==> TokenFor(id) in t.byToken && t.byToken[TokenFor(id)] == t.pending[id])
    && (forall token :: token in t.byToken ==> exists id: uint16 :: id in t.pending && token == TokenFor(id))
  }

  /** A response on its way to channel `c` is one that arrived and found that channel. */
  ghost predicate Traced(t: Table, c: nat, response: Response) {
    && response.arrival < |t.arrivals| && t.arrivals[response.arrival].packet == response.packet
    && t.arrivals[response.arrival].channel == c && c in t.channels
  }

  /** Every response held, in a channel or received is on its way to that channel. */
  ghost predicate AllTraced(t: Table) {
    && (forall h :: h in t.handlers ==> Traced(t, t.handlers[h].channel, t.handlers[h].response))
    && (forall c :: c in t.channels ==> InboxTraced(t, c))
    && (forall k :: 0 <= k < |t.receipts| ==> Traced(t, t.receipts[k].channel, t.receipts[k].response))
  }

  ghost predicate InboxTraced(t: Table, c: nat)
    requires c in t.channels
  {
    var inbox := t.channels[c].inbox;
    inbox == [] || (|inbox| == 1 && Traced(t, c, inbox[0]))
  }

  /** An arrival found a request in flight which it answers. */
  ghost predicate OnlyAnswers(t: Table) {
    forall n :: 0 <= n < |t.arrivals| ==> FoundRequest(t.arrivals[n])
  }

  ghost predicate FoundRequest(arrival: Arrival) {
    arrival.channel in arrival.inFlight && Answers(arrival.packet, IdAt(arrival.channel))
  }

  predicate Answers(packet: Packet, id: uint16) {
    IsResponse(packet) && (packet.messageId == id || packet.token == TokenFor(id))
  }

  /** A request receives once, and then waits no more. */
  ghost predicate ReceivedOnce(t: Table) {
    && (forall k :: 0 <= k < |t.receipts| ==>
          t.receipts[k].channel < t.issued && (t.receipts[k].channel in t.waiters ==> !t.waiters[t.receipts[k].channel].waiting))
    && (forall j, k :: 0 <= j < k < |t.receipts| ==> t.receipts[j].channel != t.receipts[k].channel)
  }

  /** What both maps, the channels and the requests in flight have in common, panic or not. */
  ghost predicate Coherent(t: Table) {
    && t.nextId == CounterAfter(t.issued) && t.panic != Some(CloseOfClosed)
    && Owned(t) && Mapped(t) && Mirrored(t) && AllTraced(t) && OnlyAnswers(t) && ReceivedOnce(t)
  }

  /** Besides, no open request has lost its entries. */
  ghost predicate Consistent(t: Table) {
    Coherent(t) && AllMapped(t)
  }

  /** Two requests in flight have different IDs. */
  lemma OwnIds(t: Table, c: nat, d: nat)
    requires Owned(t) && Young(t)
    requires c in t.waiters && (d in t.waiters || d == t.issued) && c != d
    ensures t.waiters[c].id != IdAt(d)
  {
    hide IdAt;
    if c < d {
      IdsDifferInWindow(c, d);
    } else {
      IdsDifferInWindow(d, c);
    }
  }

  lemma BeginKeeps(t: Table)
    requires Coherent(t) && t.nextId <= ID_COUNT
    ensures Coherent(Begin(t))
  {
    hide IdAt, TokenFor, CounterAfter, NextId, Owned, Mapped, Mirrored, AllTraced, OnlyAnswers, ReceivedOnce;
    CounterFollowsIds(t.issued);
    BeginKeepsOwned(t);
    BeginKeepsMapped(t);
    BeginKeepsTrace(t);
    BeginKeepsMirror(t);
  }

  lemma BeginKeepsMapped(t: Table)
    requires Owned(t) && Mapped(t) && t.nextId <= ID_COUNT && NextId(t.nextId).0 == IdAt(t.issued)
    ensures Mapped(Begin(t))
  {
    hide IdAt, TokenFor, NextId;
    var id, after := NextId(t.nextId).0, Begin(t);
    forall other | other in t.pending && other != id ensures HoldsRequest(after, other) {
      assert HoldsRequest(t, other);
    }
  }

  /** A new request takes nobody's entries while every request in flight is young. */
  lemma BeginKeepsAll(t: Table)
    requires Consistent(t) && Young(t) && t.nextId <= ID_COUNT
    ensures Consistent(Begin(t))
  {
    hide IdAt, TokenFor, CounterAfter, NextId, Mapped, AllMapped, Mirrored, AllTraced, OnlyAnswers, ReceivedOnce;
    CounterFollowsIds(t.issued);
    forall c | c in t.waiters ensures t.waiters[c].id != IdAt(t.issued) {
      OwnIds(t, c, t.issued);
    }
    BeginKeepsExactly(t);
  }

  lemma BeginKeepsOwned(t: Table)
    requires Owned(t) && t.nextId <= ID_COUNT && NextId(t.nextId).0 == IdAt(t.issued)
    ensures Owned(Begin(t))
  {
    hide IdAt, NextId;
  }

  lemma BeginKeepsTrace(t: Table)
    requires Owned(t) && AllTraced(t) && OnlyAnswers(t) && ReceivedOnce(t) && t.nextId <= ID_COUNT
    ensures AllTraced(Begin(t)) && OnlyAnswers(Begin(t)) && ReceivedOnce(Begin(t))
  {
    hide IdAt, NextId, FoundRequest, TokenFor;
    var after := Begin(t);
    forall c | c in t.channels ensures InboxTraced(after, c) {
      assert InboxTraced(t, c) && c != t.issued;
    }
  }

  lemma BeginKeepsMirror(t: Table)
    requires Mirrored(t) && t.nextId <= ID_COUNT
    ensures Mirrored(Begin(t))
  {
    hide TokenFor, NextId;
    var id, after := NextId(t.nextId).0, Begin(t);
    forall other: uint16 | other in after.pending
      ensures TokenFor(other) in after.byToken && after.byToken[TokenFor(other)] == after.pending[other]
    {
      if TokenFor(other) == TokenFor(id) {
        TokensDiffer(other, id);
      }
    }
    assert id in after.pending;
  }

  /** A new request leaves the table consistent exactly when no open request holds its ID. */
  lemma BeginKeepsExactly(t: Table)
    requires Consistent(t) && t.nextId <= ID_COUNT
    ensures Consistent(Begin(t))
       <==> forall c :: c in t.waiters && c in t.channels && !t.channels[c].closed ==> t.waiters[c].id != NextId(t.nextId).0
  {
    hide Coherent, IdAt, TokenFor, CounterAfter, NextId, AllMapped;
    BeginKeeps(t);
    OwnsItsIds(t);
    BeginMapsExactly(t);
  }

  lemma OwnsItsIds(t: Table)
    requires Coherent(t) && t.nextId <= ID_COUNT
    ensures Owned(t) && NextId(t.nextId).0 == IdAt(t.issued)
  {
    hide Owned, Mapped, Mirrored, AllTraced, OnlyAnswers, ReceivedOnce;
    CounterFollowsIds(t.issued);
  }

  lemma BeginMapsExactly(t: Table)
    requires Owned(t) && AllMapped(t) && t.nextId <= ID_COUNT && NextId(t.nextId).0 == IdAt(t.issued)
    ensures AllMapped(Begin(t))
       <==> forall c :: c in t.waiters && c in t.channels && !t.channels[c].closed ==> t.waiters[c].id != NextId(t.nextId).0
  {
    hide IdAt, TokenFor, NextId;
    var id, after := NextId(t.nextId).0, Begin(t);
    forall c | c in t.waiters && c in t.channels && !t.channels[c].closed && t.waiters[c].id == id ensures !AllMapped(after) {
      assert after.waiters[c].id == id && !after.channels[c].closed;
      assert after.pending[id] != c;
    }
  }

  lemma TakeIdKeeps(t: Table)
    requires Coherent(t) && t.nextId <= ID_COUNT
    ensures Coherent(TakeId(t))
  {
    hide IdAt, TokenFor, CounterAfter, NextId, Owned, Mapped, Mirrored, AllTraced, OnlyAnswers, ReceivedOnce;
    CounterFollowsIds(t.issued);
    TakeIdKeepsMaps(t);
    TakeIdKeepsTrace(t);
  }

  lemma TakeIdKeepsMaps(t: Table)
    requires Owned(t) && Mapped(t) && Mirrored(t) && t.nextId <= ID_COUNT
    ensures Owned(TakeId(t)) && Mapped(TakeId(t)) && Mirrored(TakeId(t))
  {
    hide IdAt, TokenFor, NextId;
    assert forall id :: id in t.pending ==> HoldsRequest(t, id) && HoldsRequest(TakeId(t), id);
  }

  lemma TakeIdKeepsTrace(t: Table)
    requires AllTraced(t) && OnlyAnswers(t) && ReceivedOnce(t) && t.nextId <= ID_COUNT
    ensures AllTraced(TakeId(t)) && OnlyAnswers(TakeId(t)) && ReceivedOnce(TakeId(t))
  {
    hide NextId, FoundRequest, Traced, InboxTraced;
    TraceStays(t, TakeId(t));
  }

  /** A response reaches an open request in flight, the one with its ID or with its token. */
  lemma LookUpAnswers(t: Table, packet: Packet)
    requires Coherent(t) && LookUp(t, packet).Some?
    ensures var c := LookUp(t, packet).value;
            && c in t.waiters && c in t.channels && !t.channels[c].closed
            && (packet.messageId == IdAt(c) || (packet.messageId !in t.pending && packet.token == TokenFor(IdAt(c))))
  {
    hide IdAt, TokenFor, CounterAfter, AllTraced, OnlyAnswers, ReceivedOnce;
    if packet.messageId in t.pending {
      assert HoldsRequest(t, packet.messageId);
    } else {
      var id: uint16 :| id in t.pending && packet.token == TokenFor(id);
      assert HoldsRequest(t, id);
    }
  }

  /** It goes by the token only if no open request has its ID. */
  lemma LookUpFindsRequest(t: Table, packet: Packet)
    requires Consistent(t) && LookUp(t, packet).Some?
    ensures var c := LookUp(t, packet).value;
            && c in t.waiters && c in t.channels && !t.channels[c].closed
            && (packet.messageId == IdAt(c) ||
                (packet.token == TokenFor(IdAt(c)) &&
                 forall other :: other in t.waiters && t.waiters[other].id == packet.messageId ==> t.channels[other].closed))
  {
    hide IdAt, TokenFor, CounterAfter, LookUp, Mapped, Mirrored, AllTraced, OnlyAnswers, ReceivedOnce;
    LookUpAnswers(t, packet);
  }

  lemma FindKeeps(t: Table, handler: nat, packet: Packet)
    requires Coherent(t)
    ensures Coherent(Find(t, handler, packet))
  {
    hide IdAt, TokenFor, CounterAfter, LookUp, Owned, Mapped, Mirrored, AllTraced, OnlyAnswers, ReceivedOnce;
    if handler !in t.handlers && IsResponse(packet) && LookUp(t, packet).Some? {
      LookUpAnswers(t, packet);
      FindKeepsMaps(t, handler, packet);
      FindKeepsTrace(t, handler, packet);
    }
  }

  lemma FindKeepsMaps(t: Table, handler: nat, packet: Packet)
    requires Owned(t) && Mapped(t) && Mirrored(t) && ReceivedOnce(t)
    ensures var after := Find(t, handler, packet);
            Owned(after) && Mapped(after) && Mirrored(after) && ReceivedOnce(after)
  {
    hide IdAt, TokenFor, LookUp;
    assert forall id :: id in t.pending ==> HoldsRequest(t, id) && HoldsRequest(Find(t, handler, packet), id);
  }

  lemma FindKeepsTrace(t: Table, handler: nat, packet: Packet)
    requires AllTraced(t) && OnlyAnswers(t) && IsResponse(packet) && LookUp(t, packet).Some?
    requires var c := LookUp(t, packet).value;
             c in t.waiters && c in t.channels && (packet.messageId == IdAt(c) || packet.token == TokenFor(IdAt(c)))
    ensures AllTraced(Find(t, handler, packet)) && OnlyAnswers(Find(t, handler, packet))
  {
    hide IdAt, TokenFor, LookUp, Traced, InboxTraced;
    var after := Find(t, handler, packet);
    assert forall n :: 0 <= n < |t.arrivals| ==> FoundRequest(t.arrivals[n]) && after.arrivals[n] == t.arrivals[n];
    TraceStays(t, after);
    if handler !in t.handlers {
      NewlyTraced(after, handler);
    }
  }

  /** A trace only needs that arrivals are not forgotten and channels not removed. */
  lemma TraceStays(t: Table, after: Table)
    requires t.arrivals <= after.arrivals && t.channels.Keys <= after.channels.Keys
    ensures forall c, response :: Traced(t, c, response) ==> Traced(after, c, response)
    ensures forall c :: (c in t.channels && InboxTraced(t, c) && after.channels[c].inbox == t.channels[c].inbox) ==> InboxTraced(after, c)
  {
  }

  lemma NewlyTraced(after: Table, handler: nat)
    requires handler in after.handlers && after.arrivals != []
    requires var Held(c, response) := after.handlers[handler];
             var last := |after.arrivals| - 1;
             c in after.channels && response == Response(last, after.arrivals[last].packet) && after.arrivals[last].channel == c
    ensures Traced(after, after.handlers[handler].channel, after.handlers[handler].response)
  {
  }

  lemma OfferKeeps(t: Table, handler: nat)
    requires Coherent(t)
    ensures Coherent(Offer(t, handler))
  {
    hide IdAt, CounterAfter, Owned, Mapped, Mirrored, AllTraced, OnlyAnswers, ReceivedOnce;
    OfferKeepsMaps(t, handler);
    OfferKeepsTrace(t, handler);
  }

  lemma OfferKeepsMaps(t: Table, handler: nat)
    requires Owned(t) && Mapped(t) && Mirrored(t) && ReceivedOnce(t)
    ensures Owned(Offer(t, handler)) && Mapped(Offer(t, handler)) && Mirrored(Offer(t, handler)) && ReceivedOnce(Offer(t, handler))
  {
    hide IdAt, TokenFor;
    assert forall id :: id in t.pending ==> HoldsRequest(t, id) && HoldsRequest(Offer(t, handler), id);
  }

  lemma OfferKeepsTrace(t: Table, handler: nat)
    requires AllTraced(t) && OnlyAnswers(t)
    ensures AllTraced(Offer(t, handler)) && OnlyAnswers(Offer(t, handler))
  {
    hide IdAt, FoundRequest, Traced, InboxTraced;
    var after := Offer(t, handler);
    TraceStays(t, after);
    if handler in t.handlers && t.handlers[handler].channel in t.channels {
      var Held(c, response) := t.handlers[handler];
      if after.channels[c].inbox != t.channels[c].inbox {
        OneTraced(after, c, response);
      }
    }
  }

  lemma OneTraced(t: Table, c: nat, response: Response)
    requires c in t.channels && t.channels[c].inbox == [response] && Traced(t, c, response)
    ensures InboxTraced(t, c)
  {
  }

  lemma ReceiveKeeps(t: Table, channel: nat)
    requires Coherent(t)
    ensures Coherent(Receive(t, channel))
  {
    hide IdAt, CounterAfter, Owned, Mapped, Mirrored, AllTraced, OnlyAnswers, ReceivedOnce;
    ReceiveKeepsMaps(t, channel);
    ReceiveKeepsOnce(t, channel);
    ReceiveKeepsTrace(t, channel);
  }

  lemma ReceiveKeepsMaps(t: Table, channel: nat)
    requires Owned(t) && Mapped(t) && Mirrored(t)
    ensures var after := Receive(t, channel);
            Owned(after) && Mapped(after) && Mirrored(after)
  {
    hide IdAt, TokenFor, HoldsRequest, Mirrored;
    var after := Receive(t, channel);
    forall id | id in t.pending ensures HoldsRequest(after, id) {
      StillHolds(t, after, id);
    }
    SameMirror(t, after);
  }

  lemma StillHolds(t: Table, after: Table, id: uint16)
    requires id in t.pending && HoldsRequest(t, id) && after.pending == t.pending
    requires forall c :: c in t.waiters ==> c in after.waiters && after.waiters[c].id == t.waiters[c].id
    requires forall c :: c in t.channels ==> c in after.channels && after.channels[c].closed == t.channels[c].closed
    ensures HoldsRequest(after, id)
  {
  }

  lemma SameMirror(t: Table, after: Table)
    requires Mirrored(t) && after.pending == t.pending && after.byToken == t.byToken
    ensures Mirrored(after)
  {
    hide TokenFor;
  }

  lemma ReceiveKeepsOnce(t: Table, channel: nat)
    requires Owned(t) && ReceivedOnce(t)
    ensures ReceivedOnce(Receive(t, channel))
  {
    hide IdAt;
  }

  lemma ReceiveKeepsTrace(t: Table, channel: nat)
    requires AllTraced(t) && OnlyAnswers(t)
    ensures AllTraced(Receive(t, channel)) && OnlyAnswers(Receive(t, channel))
  {
    hide IdAt, FoundRequest;
    var after := Receive(t, channel);
    forall c | c in t.channels ensures InboxTraced(t, c) && InboxTraced(after, c) {
      assert InboxTraced(t, c);
    }
  }

  lemma EndKeeps(t: Table, channel: nat)
    requires Coherent(t)
    ensures Coherent(End(t, channel))
  {
    hide IdAt, TokenFor, CounterAfter, Mapped, Mirrored, OnlyAnswers;
    if channel in t.waiters {
      EndKeepsMap(t, channel);
      EndKeepsMirror(t, channel);
      assert forall c :: c in t.channels ==> InboxTraced(t, c) && InboxTraced(End(t, channel), c);
      EndKeepsAnswers(t, channel);
    }
  }

  lemma EndKeepsAnswers(t: Table, channel: nat)
    requires OnlyAnswers(t)
    ensures OnlyAnswers(End(t, channel))
  {
  }

  lemma EndKeepsMap(t: Table, channel: nat)
    requires Owned(t) && Mapped(t) && channel in t.waiters
    ensures Mapped(End(t, channel))
  {
    hide IdAt, TokenFor;
    forall id | id in t.pending && id != t.waiters[channel].id ensures HoldsRequest(End(t, channel), id) {
      assert HoldsRequest(t, id);
    }
  }

  lemma EndKeepsMirror(t: Table, channel: nat)
    requires Mirrored(t) && channel in t.waiters
    ensures Mirrored(End(t, channel))
  {
    hide TokenFor;
    var id, after := t.waiters[channel].id, End(t, channel);
    forall other: uint16 | other in after.pending
      ensures TokenFor(other) in after.byToken && after.byToken[TokenFor(other)] == after.pending[other]
    {
      if TokenFor(other) == TokenFor(id) {
        TokensDiffer(other, id);
      }
    }
    forall token | token in after.byToken ensures exists other: uint16 :: other in after.pending && token == TokenFor(other) {
      var other: uint16 :| other in t.pending && token == TokenFor(other);
      assert other in after.pending;
    }
  }

  lemma CloseKeeps(t: Table)
    requires Coherent(t)
    ensures Coherent(CloseAll(t))
  {
    hide IdAt, TokenFor, CounterAfter, Owned, Mapped, Mirrored, AllTraced, OnlyAnswers, ReceivedOnce;
    PendingAreOpen(t);
    CloseKeepsMaps(t);
    CloseKeepsTrace(t);
  }

  /** Every channel in the map is a known one that was not closed. */
  lemma PendingAreOpen(t: Table)
    requires Mapped(t)
    ensures forall c :: c in t.pending.Values ==> c in t.waiters && c in t.channels && !t.channels[c].closed
  {
    forall c | c in t.pending.Values ensures c in t.waiters && c in t.channels && !t.channels[c].closed {
      var id :| id in t.pending && t.pending[id] == c;
      assert HoldsRequest(t, id);
    }
  }

  lemma CloseKeepsMaps(t: Table)
    requires Owned(t) && Mapped(t)
    ensures Owned(CloseAll(t)) && Mapped(CloseAll(t)) && Mirrored(CloseAll(t))
  {
    hide IdAt, TokenFor;
  }

  lemma CloseKeepsTrace(t: Table)
    requires AllTraced(t) && OnlyAnswers(t) && ReceivedOnce(t)
    ensures AllTraced(CloseAll(t)) && OnlyAnswers(CloseAll(t)) && ReceivedOnce(CloseAll(t))
  {
    hide FoundRequest, Closing;
    ClosingKeepsInboxes(t.channels, t.pending.Values);
    forall c | c in t.channels ensures InboxTraced(CloseAll(t), c) {
      assert InboxTraced(t, c);
    }
  }

  lemma ClosingKeepsInboxes(channels: map<nat, Channel>, closing: set<nat>)
    ensures Closing(channels, closing).Keys == channels.Keys
    ensures forall c :: c in channels ==> Closing(channels, closing)[c].inbox == channels[c].inbox
  {
  }

  /**
   * In every run: no channel is closed twice, the two maps agree and hold open
   * requests in flight only, and every response on its way to a channel arrived for a
   * request in flight and answers it.
   */
  lemma {:induction false} EveryRunIsCoherent(events: seq<Event>)
    ensures Coherent(Execute(events))
    decreases |events|
  {
    hide Coherent, Apply;
    if events == [] {
      EmptyIsConsistent();
    } else {
      EveryRunIsCoherent(events[..|events| - 1]);
      ApplyKeeps(Execute(events[..|events| - 1]), events[|events| - 1]);
    }
  }

  /** In every run in which no request outlives 65535 further IDs the maps hold all open requests. */
  lemma {:induction false} EveryRunIsConsistent(events: seq<Event>)
    requires AlwaysYoung(events)
    ensures Consistent(Execute(events))
    decreases |events|
  {
    hide Coherent, AllMapped, Apply, Young;
    EveryRunIsCoherent(events);
    if events == [] {
      EmptyIsConsistent();
    } else {
      var before, e := events[..|events| - 1], events[|events| - 1];
      assert forall k :: 0 <= k <= |before| ==> before[..k] == events[..k];
      EveryRunIsConsistent(before);
      assert Young(Execute(before));
      ApplyKeepsAll(Execute(before), e);
    }
  }

  lemma EmptyIsConsistent()
    ensures Consistent(EMPTY)
  {
  }

  lemma ApplyKeeps(t: Table, e: Event)
    requires Coherent(t) && t.nextId <= ID_COUNT
    ensures Coherent(Apply(t, e))
  {
    hide Coherent, Begin, TakeId, Find, Offer, Receive, End, CloseAll;
    match e
    case Requested => BeginKeeps(t);
    case MessageSent => TakeIdKeeps(t);
    case PacketArrived(handler, packet) => FindKeeps(t, handler, packet);
    case Offered(handler) => OfferKeeps(t, handler);
    case Received(channel) => ReceiveKeeps(t, channel);
    case Ended(channel) => EndKeeps(t, channel);
    case Closed => CloseKeeps(t);
  }

  lemma ApplyKeepsAll(t: Table, e: Event)
    requires Consistent(t) && Young(t) && t.nextId <= ID_COUNT
    ensures AllMapped(Apply(t, e))
  {
    hide Coherent, AllMapped, Begin, TakeId, Find, Offer, Receive, End, CloseAll;
    OwnsItsIds(t);
    match e
    case Requested => BeginKeepsAll(t);
    case Ended(channel) => EndKeepsAll(t, channel);
    case _ => OthersKeepAll(t, e);
  }

  /** A request that returns takes only its own entries away while every request in flight is young. */
  lemma EndKeepsAll(t: Table, channel: nat)
    requires Owned(t) && AllMapped(t) && Young(t)
    ensures AllMapped(End(t, channel))
  {
    hide IdAt, TokenFor;
    if channel in t.waiters {
      forall c | c in t.waiters && c != channel ensures t.waiters[c].id != t.waiters[channel].id {
        OwnIds(t, c, channel);
      }
    }
  }

  lemma OthersKeepAll(t: Table, e: Event)
    requires Owned(t) && AllMapped(t) && !e.Requested? && !e.Ended? && t.nextId <= ID_COUNT
    ensures AllMapped(Apply(t, e))
  {
    hide IdAt, TokenFor, LookUp, NextId;
    if e.Closed? {
      forall c | c in t.waiters && c in t.channels && !t.channels[c].closed ensures c in t.pending.Values {
        assert t.pending[t.waiters[c].id] == c;
      }
    }
  }

  /**
   * In every such run neither map has an entry for a request that has returned, and
   * both have one for every request in flight until its channel is closed.
   */
  lemma EntriesLiveWithRequests(events: seq<Event>, channel: nat)
    requires AlwaysYoung(events)
    ensures var t := Execute(events);
            var open := channel in t.waiters && channel in t.channels && !t.channels[channel].closed;
            && (channel in t.pending.Values <==> open)
            && (channel in t.byToken.Values <==> open)
  {
    EveryRunIsConsistent(events);
    hide Execute, IdAt, TokenFor, CounterAfter, AllTraced, OnlyAnswers, ReceivedOnce;
    var t := Execute(events);
    forall id | id in t.pending && t.pending[id] == channel ensures HoldsRequest(t, id) {}
    forall token | token in t.byToken ensures t.byToken[token] in t.pending.Values {
      var id: uint16 :| id in t.pending && token == TokenFor(id);
      assert t.byToken[token] == t.pending[id];
    }
    if channel in t.waiters && channel in t.channels && !t.channels[channel].closed {
      var id := t.waiters[channel].id;
      assert t.pending[id] == channel && t.byToken[TokenFor(id)] == channel;
    }
  }

  /**
   * In every run a request receives at most one response, and each response is
   * received by at most one request, which was in flight when the response arrived
   * and which it answers.
   */
  lemma OneAnswerPerRequest(events: seq<Event>)
    ensures var t := Execute(events);
            && (forall k :: 0 <= k < |t.receipts| ==>
                  var Receipt(c, response) := t.receipts[k];
                  && response.arrival < |t.arrivals|
                  && var arrival := t.arrivals[response.arrival];
                     && arrival.packet == response.packet && c in arrival.inFlight && Answers(response.packet, IdAt(c)))
            && (forall j, k :: 0 <= j < k < |t.receipts| ==>
                  && t.receipts[j].channel != t.receipts[k].channel
                  && t.receipts[j].response.arrival != t.receipts[k].response.arrival)
  {
    EveryRunIsCoherent(events);
    hide Execute, Answers, IdAt, CounterAfter, Owned, Mapped, Mirrored;
    var t := Execute(events);
    assert forall k :: 0 <= k < |t.receipts| ==> Traced(t, t.receipts[k].channel, t.receipts[k].response);
    assert forall n :: 0 <= n < |t.arrivals| ==> FoundRequest(t.arrivals[n]);
  }

  // ---------------------------------------------------------------- sends on closed channels

  /**
   * A response was overtaken: it found its channel in step `i`, step `j` closed that
   * channel, and only step `k` sent it.
   */
  ghost predicate Overtaken(events: seq<Event>, i: nat, j: nat, k: nat) {
    && i < j < k < |events| && events[i].PacketArrived? && events[j].Closed? && events[k] == Offered(events[i].handler)
    && (forall m :: i < m < k ==> events[m] != events[k])
    && var t := Execute(events[..i]);
       && events[i].handler !in t.handlers && IsResponse(events[i].packet)
       && LookUp(t, events[i].packet).Some? && LookUp(t, events[i].packet).value in Execute(events[..j]).pending.Values
  }

  lemma PrefixesOf(events: seq<Event>, n: nat)
    requires n <= |events|
    ensures forall m :: 0 <= m <= n ==> events[..n][..m] == events[..m]
  {
    hide Execute;
    forall m | 0 <= m <= n ensures events[..n][..m] == events[..m] {
    }
  }

  /** A panic is final. */
  lemma {:induction false} PanicStays(events: seq<Event>, n: nat)
    requires n <= |events| && Execute(events[..n]).panic.Some?
    ensures Execute(events) == Execute(events[..n])
    decreases |events|
  {
    hide Begin, TakeId, Find, Offer, Receive, End, CloseAll;
    if n == |events| {
      assert events[..n] == events;
    } else {
      var before := events[..|events| - 1];
      assert before[..n] == events[..n];
      PanicStays(before, n);
    }
  }

  /** What a call holds, it holds until it sends. */
  lemma {:induction false} HeldStays(events: seq<Event>, n: nat, h: nat)
    requires n <= |events| && h in Execute(events[..n]).handlers
    requires forall m :: n <= m < |events| ==> events[m] != Offered(h)
    ensures h in Execute(events).handlers && Execute(events).handlers[h] == Execute(events[..n]).handlers[h]
    decreases |events|
  {
    hide LookUp, NextId, TokenFor, Closing;
    if n == |events| {
      assert events[..n] == events;
    } else {
      var before := events[..|events| - 1];
      assert before[..n] == events[..n];
      HeldStays(before, n, h);
    }
  }

  /** A closed channel stays closed. */
  lemma {:induction false} ClosedStays(events: seq<Event>, n: nat, c: nat)
    requires n <= |events|
    requires c in Execute(events[..n]).channels && Execute(events[..n]).channels[c].closed
    ensures c in Execute(events).channels && Execute(events).channels[c].closed
    decreases |events|
  {
    hide Apply, Coherent;
    if n == |events| {
      assert events[..n] == events;
    } else {
      var before := events[..|events| - 1];
      PrefixesOf(events, |before|);
      ClosedStays(before, n, c);
      EveryRunIsCoherent(before);
      StepKeepsChannel(Execute(before), events[|events| - 1], c);
    }
  }

  lemma StepKeepsChannel(t: Table, e: Event, c: nat)
    requires Coherent(t) && t.nextId <= ID_COUNT && c in t.channels
    ensures var after := Apply(t, e);
            && c in after.channels && (t.channels[c].closed ==> after.channels[c].closed)
            && (!t.channels[c].closed && after.channels[c].closed ==> e == Closed && c in t.pending.Values)
  {
    hide LookUp, NextId, TokenFor, IdAt, CounterAfter, Mapped, Mirrored, AllTraced, OnlyAnswers, ReceivedOnce;
  }

  /** A channel that was open before and is closed now was closed in between. */
  lemma {:induction false} ClosedSince(events: seq<Event>, n: nat, c: nat) returns (j: nat)
    requires n <= |events|
    requires c in Execute(events[..n]).channels && !Execute(events[..n]).channels[c].closed
    requires c in Execute(events).channels && Execute(events).channels[c].closed
    ensures n <= j < |events| && events[j] == Closed && c in Execute(events[..j]).pending.Values
    decreases |events|
  {
    hide Apply, Coherent;
    assert events[..|events|] == events;
    var before := events[..|events| - 1];
    PrefixesOf(events, |before|);
    EveryRunIsCoherent(before);
    ChannelStays(before, n, c);
    if Execute(before).channels[c].closed {
      j := ClosedSince(before, n, c);
      assert before[..j] == events[..j];
    } else {
      StepKeepsChannel(Execute(before), events[|events| - 1], c);
      j := |before|;
    }
  }

  lemma {:induction false} ChannelStays(events: seq<Event>, n: nat, c: nat)
    requires n <= |events| && c in Execute(events[..n]).channels
    ensures c in Execute(events).channels
    decreases |events|
  {
    hide Apply, Coherent;
    if n == |events| {
      assert events[..n] == events;
    } else {
      var before := events[..|events| - 1];
      PrefixesOf(events, |before|);
      ChannelStays(before, n, c);
      EveryRunIsCoherent(before);
      StepKeepsChannel(Execute(before), events[|events| - 1], c);
    }
  }

  /** A call holds what it found in the step that began it. */
  lemma {:induction false} HeldSince(events: seq<Event>, h: nat) returns (i: nat)
    requires Execute(events).panic.None? && h in Execute(events).handlers
    ensures i < |events| && events[i].PacketArrived? && events[i].handler == h
    ensures h !in Execute(events[..i]).handlers && IsResponse(events[i].packet)
    ensures LookUp(Execute(events[..i]), events[i].packet) == Some(Execute(events).handlers[h].channel)
    ensures forall m :: i < m < |events| ==> events[m] != Offered(h)
    decreases |events|
  {
    hide Apply, Coherent, LookUp;
    var before, e := events[..|events| - 1], events[|events| - 1];
    PrefixesOf(events, |before|);
    EveryRunIsCoherent(before);
    StepKeepsHeld(Execute(before), e, h);
    if h in Execute(before).handlers {
      i := HeldSince(before, h);
      assert before[..i] == events[..i];
    } else {
      i := |before|;
    }
  }

  lemma StepKeepsHeld(t: Table, e: Event, h: nat)
    requires Coherent(t) && t.nextId <= ID_COUNT && h in Apply(t, e).handlers && Apply(t, e).panic.None?
    ensures t.panic.None?
    ensures if h in t.handlers then e != Offered(h) && Apply(t, e).handlers[h] == t.handlers[h]
            else e.PacketArrived? && e.handler == h && IsResponse(e.packet) &&
                 LookUp(t, e.packet) == Some(Apply(t, e).handlers[h].channel)
  {
    hide LookUp, NextId, TokenFor, IdAt, CounterAfter, Owned, Mapped, Mirrored, OnlyAnswers, ReceivedOnce;
    assert h in t.handlers ==> Traced(t, t.handlers[h].channel, t.handlers[h].response);
  }

  lemma PanicsOnOffer(t: Table, e: Event)
    requires Coherent(t) && t.nextId <= ID_COUNT && t.panic.None? && Apply(t, e).panic.Some? && Coherent(Apply(t, e))
    ensures e.Offered? && e.handler in t.handlers
    ensures t.handlers[e.handler].channel in t.channels && t.channels[t.handlers[e.handler].channel].closed
  {
    hide LookUp, NextId, TokenFor, IdAt, CounterAfter, Owned, Mapped, Mirrored, AllTraced, OnlyAnswers, ReceivedOnce;
  }

  /**
   * A run panics exactly when some response is overtaken, between its look-up and its
   * send, by a close of the channel it found. It is then a send on a closed channel;
   * none is closed twice.
   */
  lemma {:induction false} PanicsExactlyWhenOvertaken(events: seq<Event>)
    ensures Execute(events).panic.Some? <==> exists i, j, k :: Overtaken(events, i, j, k)
    ensures Execute(events).panic != Some(CloseOfClosed)
  {
    hide Execute, Overtaken, Owned, Mapped, Mirrored, AllTraced, OnlyAnswers, ReceivedOnce;
    EveryRunIsCoherent(events);
    if Execute(events).panic.Some? {
      var i, j, k := PanicsOvertaken(events);
    }
    forall i, j, k | Overtaken(events, i, j, k) ensures Execute(events).panic.Some? {
      OvertakenPanics(events, i, j, k);
    }
  }

  lemma {:induction false} PanicsOvertaken(events: seq<Event>) returns (i: nat, j: nat, k: nat)
    requires Execute(events).panic.Some?
    ensures Overtaken(events, i, j, k)
    decreases |events|
  {
    hide Apply, Coherent, Overtaken, LookUp;
    var before, e := events[..|events| - 1], events[|events| - 1];
    PrefixesOf(events, |before|);
    EveryRunIsCoherent(before);
    EveryRunIsCoherent(events);
    var t := Execute(before);
    if t.panic.Some? {
      i, j, k := PanicsOvertaken(before);
      StillOvertaken(events, |before|, i, j, k);
    } else {
      PanicsOnOffer(t, e);
      var c := t.handlers[e.handler].channel;
      i := HeldSince(before, e.handler);
      PrefixesOf(events, i);
      EveryRunIsCoherent(events[..i]);
      LookUpAnswers(Execute(events[..i]), events[i].packet);
      j := ClosedSince(before, i, c);
      assert before[..i] == events[..i] && before[..j] == events[..j];
      k := |before|;
      IsOvertaken(events, i, j, k);
    }
  }

  lemma IsOvertaken(events: seq<Event>, i: nat, j: nat, k: nat)
    requires i < j < k < |events| && events[i].PacketArrived? && events[j].Closed? && events[k] == Offered(events[i].handler)
    requires forall m :: i < m < k ==> events[m] != events[k]
    requires var t := Execute(events[..i]);
             && events[i].handler !in t.handlers && IsResponse(events[i].packet)
             && LookUp(t, events[i].packet).Some? && LookUp(t, events[i].packet).value in Execute(events[..j]).pending.Values
    ensures Overtaken(events, i, j, k)
  {
  }

  lemma StillOvertaken(events: seq<Event>, n: nat, i: nat, j: nat, k: nat)
    requires n <= |events| && Overtaken(events[..n], i, j, k)
    ensures Overtaken(events, i, j, k)
  {
    hide Execute, LookUp;
    assert events[..n][..i] == events[..i] && events[..n][..j] == events[..j];
    assert forall m :: i < m < k ==> events[..n][m] == events[m];
  }

  lemma OvertakenPanics(events: seq<Event>, i: nat, j: nat, k: nat)
    requires Overtaken(events, i, j, k)
    ensures Execute(events).panic.Some?
  {
    hide Execute, Apply, Coherent, Overtaken;
    SendIsOffer(events, i, j, k);
    if Execute(events[..k]).panic.Some? {
      PanicStays(events, k);
    } else {
      HeldAtSend(events, i, j, k);
      ClosedAtSend(events, i, j, k);
      ExecuteNext(events, k);
      OfferPanics(Execute(events[..k]), events[i].handler);
      PanicStays(events, k + 1);
    }
  }

  lemma SendIsOffer(events: seq<Event>, i: nat, j: nat, k: nat)
    requires Overtaken(events, i, j, k)
    ensures i < k < |events| && events[i].PacketArrived? && events[k] == Offered(events[i].handler)
  {
    hide Execute;
  }

  lemma HeldAtSend(events: seq<Event>, i: nat, j: nat, k: nat)
    requires Overtaken(events, i, j, k) && Execute(events[..k]).panic.None?
    ensures var t, h := Execute(events[..k]), events[i].handler;
            h in t.handlers && t.handlers[h].channel == LookUp(Execute(events[..i]), events[i].packet).value
  {
    hide Execute, Apply, Coherent, LookUp;
    NoPanicBefore(events, i, k);
    PrefixesOf(events, k);
    ExecuteNext(events, i);
    FindHolds(Execute(events[..i]), events[i].handler, events[i].packet);
    HeldStays(events[..k], i + 1, events[i].handler);
  }

  lemma ClosedAtSend(events: seq<Event>, i: nat, j: nat, k: nat)
    requires Overtaken(events, i, j, k) && Execute(events[..k]).panic.None?
    ensures var t, c := Execute(events[..k]), LookUp(Execute(events[..i]), events[i].packet).value;
            c in t.channels && t.channels[c].closed
  {
    hide Execute, Apply, Coherent, LookUp;
    NoPanicBefore(events, j, k);
    PrefixesOf(events, k);
    PrefixesOf(events, j);
    EveryRunIsCoherent(events[..j]);
    ExecuteNext(events, j);
    ClosesPending(Execute(events[..j]), LookUp(Execute(events[..i]), events[i].packet).value);
    ClosedStays(events[..k], j + 1, LookUp(Execute(events[..i]), events[i].packet).value);
  }

  lemma ExecuteNext(events: seq<Event>, n: nat)
    requires n < |events|
    ensures Execute(events[..n + 1]) == Apply(Execute(events[..n]), events[n])
  {
    hide Apply;
    assert events[..n + 1][..n] == events[..n];
  }

  lemma FindHolds(t: Table, h: nat, packet: Packet)
    requires t.nextId <= ID_COUNT && t.panic.None? && h !in t.handlers && IsResponse(packet) && LookUp(t, packet).Some?
    ensures var after := Apply(t, PacketArrived(h, packet));
            h in after.handlers && after.handlers[h].channel == LookUp(t, packet).value
  {
    hide LookUp;
  }

  lemma OfferPanics(t: Table, h: nat)
    requires t.nextId <= ID_COUNT && t.panic.None? && h in t.handlers
    requires t.handlers[h].channel in t.channels && t.channels[t.handlers[h].channel].closed
    ensures Apply(t, Offered(h)).panic == Some(SendOnClosed)
  {
  }

  lemma NoPanicBefore(events: seq<Event>, n: nat, k: nat)
    requires n <= k <= |events| && Execute(events[..k]).panic.None?
    ensures Execute(events[..n]).panic.None?
  {
    hide Apply;
    assert events[..k][..n] == events[..n];
    if Execute(events[..n]).panic.Some? {
      PanicStays(events[..k], n);
    }
  }

  lemma ClosesPending(t: Table, c: nat)
    requires Coherent(t) && t.nextId <= ID_COUNT && t.panic.None? && c in t.pending.Values
    ensures c in Apply(t, Closed).channels && Apply(t, Closed).channels[c].closed
  {
    hide Owned, Mirrored, AllTraced, OnlyAnswers, ReceivedOnce, IdAt, CounterAfter;
    PendingAreOpen(t);
  }

  /**
   * From every state in which a response finds a request, a close that comes between
   * its look-up and its send makes the send panic.
   */
  lemma CloseOvertakesResponse(t: Table, h: nat, packet: Packet)
    requires Coherent(t) && t.nextId <= ID_COUNT && t.panic.None? && h !in t.handlers
    requires IsResponse(packet) && LookUp(t, packet).Some?
    ensures var found := Apply(t, PacketArrived(h, packet));
            found.nextId <= ID_COUNT && Apply(found, Closed).nextId <= ID_COUNT &&
            Apply(Apply(found, Closed), Offered(h)).panic == Some(SendOnClosed)
  {
    hide LookUp, IdAt, CounterAfter, Owned, Mapped, Mirrored, AllTraced, OnlyAnswers, ReceivedOnce;
    var found := Apply(t, PacketArrived(h, packet));
    FindKeeps(t, h, packet);
    CloseKeeps(found);
    LookUpInPending(t, packet);
    ClosesPending(found, LookUp(t, packet).value);
    OfferPanics(Apply(found, Closed), h);
  }

  lemma LookUpInPending(t: Table, packet: Packet)
    requires Coherent(t) && LookUp(t, packet).Some?
    ensures LookUp(t, packet).value in t.pending.Values
  {
    hide IdAt, TokenFor, CounterAfter, Owned, Mapped, AllTraced, OnlyAnswers, ReceivedOnce;
    if packet.messageId !in t.pending {
      var id: uint16 :| id in t.pending && packet.token == TokenFor(id);
    }
  }

  // ---------------------------------------------------------------- the window

  /**
   * The window matters: when a request is still in flight as its ID comes round
   * again, the new request takes over its entries and then loses them when the old
   * one returns, so that no response can reach it.
   */
  lemma OldRequestEvictsNew(t: Table, channel: nat)
    requires Coherent(t) && t.nextId <= ID_COUNT
    requires channel in t.waiters && t.issued == channel + ID_COUNT
    ensures var after := End(Begin(t), channel);
            && t.issued in after.waiters && after.waiters[t.issued].id == t.waiters[channel].id
            && t.issued !in after.pending.Values && t.issued !in after.byToken.Values
  {
    hide TokenFor, IdAt, CounterAfter, NextId, Owned, AllTraced, OnlyAnswers, ReceivedOnce, Mapped, Mirrored;
    CounterFollowsIds(t.issued);
    IdComesRound(t, channel);
    NewerIsUnmapped(t);
    var id := t.waiters[channel].id;
    assert Begin(t).pending == t.pending[id := t.issued] && Begin(t).byToken == t.byToken[TokenFor(id) := t.issued];
    assert End(Begin(t), channel).pending == t.pending - {id};
    assert End(Begin(t), channel).byToken == t.byToken - {TokenFor(id)};
  }

  lemma IdComesRound(t: Table, channel: nat)
    requires Owned(t) && channel in t.waiters && t.issued == channel + ID_COUNT
    ensures IdAt(t.issued) == t.waiters[channel].id
  {
  }

  lemma NewerIsUnmapped(t: Table)
    requires Owned(t) && Mapped(t) && Mirrored(t)
    ensures forall id :: id in t.pending ==> t.pending[id] != t.issued
    ensures forall token :: token in t.byToken ==> t.byToken[token] != t.issued
  {
    hide TokenFor, IdAt;
    forall id | id in t.pending ensures t.pending[id] != t.issued {
      assert HoldsRequest(t, id);
    }
    forall token | token in t.byToken ensures t.byToken[token] != t.issued {
      var id: uint16 :| id in t.pending && token == TokenFor(id);
      assert t.byToken[token] == t.pending[id];
    }
  }

  // ---------------------------------------------------------------- the code

  class Client {
    var nextId: uint32
    var pending: map<uint16, nat>
    var pendingByToken: map<Bytes, nat>
    var channels: map<nat, Channel>
    var arrived: nat // responses that found a channel so far
    var panic: Option<Panic>
    ghost var issued: nat
    ghost var waiters: map<nat, Waiter>
    ghost var handlers: map<nat, Held>
    ghost var arrivals: seq<Arrival>
    ghost var receipts: seq<Receipt>

    ghost function View(): Table
      reads this
    {
      Table(nextId, issued, pending, pendingByToken, channels, waiters, handlers, arrivals, receipts, panic)
    }

    ghost predicate Valid()
      reads this
    {
      Coherent(View()) && nextId <= ID_COUNT && arrived == |arrivals| && panic.None?
    }

    constructor ()
      ensures Valid() && View() == EMPTY
    {
      nextId, pending, pendingByToken, channels, arrived, panic := 1, map[], map[], map[], 0, None;
      issued, waiters, handlers, arrivals, receipts := 0, map[], map[], [], [];
      new;
      EmptyIsConsistent();
    }

    method NextMessageId() returns (id: uint16)
      requires Valid()
      modifies this`nextId, this`issued
      ensures View() == TakeId(old(View())) && Coherent(View())
      ensures id == IdAt(old(issued))
    {
      CounterFollowsIds(issued);
      TakeIdKeeps(View());
      var next: uint32 := nextId + 1;
      issued := issued + 1;
      if next > 0xffff {
        nextId := 1;
        return 1;
      }
      nextId := next;
      return next;
    }

    /** SendRequest up to the point where it waits. */
    method RegisterRequest(channel: nat) returns (id: uint16)
      requires Valid() && channel == issued
      modifies this
      ensures View() == Begin(old(View())) && Coherent(View())
      ensures id == IdAt(channel)
    {
      hide Coherent, IdAt, CounterAfter;
      BeginKeeps(View());
      IssuesNext(View());
      id := NextMessageId();
      channels := channels[channel := Channel([], false)];
      pending := pending[id := channel];
      pendingByToken := pendingByToken[TokenFor(id) := channel];
      waiters := waiters[channel := Waiter(id, true)];
    }

    method RemovePending(id: uint16, ghost channel: nat)
      requires Valid() && channel in waiters && waiters[channel].id == id
      modifies this`pending, this`pendingByToken, this`waiters
      ensures View() == End(old(View()), channel) && Coherent(View())
    {
      EndKeeps(View(), channel);
      pending := pending - {id};
      pendingByToken := pendingByToken - {TokenFor(id)};
      waiters := waiters - {channel};
    }

    /**
     * The first half of HandlePacketWithContext, under the lock: a response finds the
     * channel of the request it belongs to. The lock is released before the send.
     */
    method FindResponse(ghost handler: nat, packet: Packet) returns (held: Option<Held>)
      requires Valid() && handler !in handlers
      modifies this`arrived, this`handlers, this`arrivals
      ensures View() == Find(old(View()), handler, packet) && Valid()
      ensures held.Some? <==> IsResponse(packet) && LookUp(old(View()), packet).Some?
      ensures held.Some? ==> handler in handlers && handlers[handler] == held.value
    {
      hide Coherent;
      FindKeeps(View(), handler, packet);
      if !IsResponse(packet) {
        return None;
      }
      var response: nat;
      if packet.messageId in pending {
        response := pending[packet.messageId];
      } else if packet.token in pendingByToken {
        response := pendingByToken[packet.token];
      } else {
        return None;
      }
      held := Some(Held(response, Response(arrived, packet)));
      handlers := handlers[handler := held.value];
      arrivals := arrivals + [Arrival(packet, response, waiters.Keys)];
      arrived := arrived + 1;
    }

    /** The second half, without the lock: a send that panics exactly when the channel was closed meanwhile. */
    method OfferResponse(ghost handler: nat, held: Held)
      requires Valid() && handler in handlers && handlers[handler] == held
      modifies this`channels, this`handlers, this`panic
      ensures View() == Offer(old(View()), handler) && Coherent(View())
      ensures held.channel in old(channels) && (panic.None? <==> !old(channels)[held.channel].closed)
    {
      HeldIsKnown(View(), handler);
      hide Coherent;
      OfferKeeps(View(), handler);
      var channel := channels[held.channel];
      handlers := handlers - {handler};
      if channel.closed {
        panic := Some(SendOnClosed);
      } else if channel.inbox == [] {
        channels := channels[held.channel := channel.(inbox := [held.response])];
      }
    }

    method CloseWithError()
      requires Valid()
      modifies this`pending, this`pendingByToken, this`channels, this`panic
      ensures View() == CloseAll(old(View())) && Coherent(View())
      ensures panic.None?
    {
      hide Coherent, ClosedSoFar, CloseAll;
      CloseKeeps(View());
      ClosingStarts(View());
      ghost var before := View();
      ClosePending(before);
      ClosingEnds(before, channels);
      pendingByToken := map[];
    }

    /** The first loop of CloseWithError. */
    method ClosePending(ghost before: Table)
      requires ClosedSoFar(before, pending, channels) && panic.None?
      modifies this`pending, this`channels, this`panic
      ensures ClosedSoFar(before, map[], channels) && pending == map[] && panic.None?
    {
      hide ClosedSoFar;
      while pending != map[]
        invariant ClosedSoFar(before, pending, channels)
        invariant panic.None?
        decreases |pending|
      {
        var id :| id in pending;
        ClosingStep(before, pending, channels, id);
        var response := pending[id];
        panic := if channels[response].closed then Some(CloseOfClosed) else panic;
        channels := channels[response := channels[response].(closed := true)];
        pending := pending - {id};
      }
    }
  }

  lemma IssuesNext(t: Table)
    requires Coherent(t) && t.nextId <= ID_COUNT
    ensures NextId(t.nextId).0 == IdAt(t.issued)
  {
    hide Owned, Mapped, Mirrored, AllTraced, OnlyAnswers, ReceivedOnce;
    CounterFollowsIds(t.issued);
  }

  lemma HeldIsKnown(t: Table, handler: nat)
    requires Coherent(t) && handler in t.handlers
    ensures t.handlers[handler].channel in t.channels
  {
    assert Traced(t, t.handlers[handler].channel, t.handlers[handler].response);
  }

  predicate Injective(pending: map<uint16, nat>) {
    forall a, b :: a in pending && b in pending && pending[a] == pending[b] ==> a == b
  }

  predicate OpenChannels(channels: map<nat, Channel>, some: set<nat>) {
    forall c :: c in some ==> c in channels && !channels[c].closed
  }

  /** The loop of CloseWithError: the channels of the requests already removed are closed. */
  ghost predicate ClosedSoFar(before: Table, pending: map<uint16, nat>, channels: map<nat, Channel>) {
    && Injective(pending) && pending.Values <= before.pending.Values
    && OpenChannels(before.channels, before.pending.Values)
    && channels == Closing(before.channels, before.pending.Values - pending.Values)
  }

  lemma ClosingStarts(t: Table)
    requires Coherent(t)
    ensures ClosedSoFar(t, t.pending, t.channels)
  {
    hide IdAt, TokenFor, CounterAfter, AllTraced, OnlyAnswers, ReceivedOnce, Mirrored;
    forall id | id in t.pending ensures HoldsRequest(t, id) {}
    assert t.pending.Values - t.pending.Values == {};
  }

  /** The next channel to close is still open. */
  lemma ClosingStep(before: Table, pending: map<uint16, nat>, channels: map<nat, Channel>, id: uint16)
    requires ClosedSoFar(before, pending, channels) && id in pending
    ensures pending[id] in channels && !channels[pending[id]].closed
    ensures ClosedSoFar(before, pending - {id}, channels[pending[id] := channels[pending[id]].(closed := true)])
    ensures |pending - {id}| < |pending|
  {
    hide Injective, Closing;
    OneFewer(pending, id);
    ClosingKeeps(before.channels, before.pending.Values - pending.Values, pending[id]);
    var c, done := pending[id], before.pending.Values - pending.Values;
    assert c in pending.Values;
    assert before.pending.Values - (pending - {id}).Values == done + {c};
    ClosingOne(before.channels, done, c);
  }

  lemma ClosingOne(channels: map<nat, Channel>, done: set<nat>, c: nat)
    requires c in channels
    ensures Closing(channels, done + {c}) == Closing(channels, done)[c := channels[c].(closed := true)]
  {
  }

  lemma ClosingKeeps(channels: map<nat, Channel>, done: set<nat>, c: nat)
    requires c in channels && c !in done
    ensures c in Closing(channels, done) && Closing(channels, done)[c] == channels[c]
  {
  }

  lemma ClosingEnds(before: Table, channels: map<nat, Channel>)
    requires ClosedSoFar(before, map[], channels)
    ensures CloseAll(before) == before.(pending := map[], byToken := map[], channels := channels)
  {
    var none: map<uint16, nat> := map[];
    assert none.Values == {};
    assert before.pending.Values - {} == before.pending.Values;
  }

  lemma OneFewer(pending: map<uint16, nat>, id: uint16)
    requires Injective(pending) && id in pending
    ensures Injective(pending - {id}) && (pending - {id}).Values == pending.Values - {pending[id]}
    ensures |pending - {id}| < |pending|
  {
    var fewer := pending - {id};
    forall c | c in pending.Values && c != pending[id] ensures c in fewer.Values {
      var other :| other in pending && pending[other] == c;
      assert other in fewer && fewer[other] == c;
    }
    assert fewer.Keys == pending.Keys - {id};
  }
}
