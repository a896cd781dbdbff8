/**
 * Deliveries, edits and deletions of webhooks running side by side
 * (internal/webhooks/service.go). A delivery lists the records once, and each of its
 * looks at a record, and the record of each request it sends, is a step of its own.
 */
module WebhookInterleaving {
  import opened Basics
  import opened WebhookBackoff

  /** The request being sent: the webhook as it was listed, and when it was found due. */
  datatype Sending = Sending(hook: Webhook, at: int)

  /** A call of DeliverEvent, with the listed webhooks it has yet to look at. */
  datatype Delivery = Delivery(name: string, todo: seq<Webhook>, sending: Option<Sending>)

  datatype State = State(
    hooks: map<string, Webhook>, clock: int, deliveries: map<nat, Delivery>, logs: map<string, seq<Entry>>)

  /** `saved` is how the save of the step turns out; `now` is the clock, unless that would run backwards. */
  datatype Event =
    | Created(id: string, details: Details, now: int)
    | Published(pid: nat, name: string, listed: seq<string>)
    | Looked(pid: nat, now: int)
    | Answered(pid: nat, delivered: bool, status: int, now: int, saved: bool)
    | Updated(id: string, details: Details, now: int, saved: bool)
    | Deleted(id: string)

  const INITIAL := State(map[], 0, map[], map[])

  function Time(s: State, now: int): int {
    if now > s.clock then now else s.clock
  }

  function Log(s: State, id: string): seq<Entry> {
    if id in s.logs then s.logs[id] else []
  }

  predicate IsStored(hooks: map<string, Webhook>, hook: Webhook) {
    exists id :: id in hooks && hooks[id] == hook
  }

  /** The listed records. */
  function Records(hooks: map<string, Webhook>, listed: seq<string>): (r: seq<Webhook>)
    ensures forall hook :: hook in r ==> IsStored(hooks, hook)
  {
    if listed == [] then []
    else if listed[0] in hooks then [hooks[listed[0]]] + Records(hooks, listed[1..])
    else Records(hooks, listed[1..])
  }

  /** The next listed webhook is passed over, or a request for it is sent. */
  function Look(sendable: (Webhook, string) -> bool, d: Delivery, now: int): Delivery {
    if d.sending.Some? || d.todo == [] then d
    else
      var hook := d.todo[0];
      Delivery(d.name, d.todo[1..],
               if Matches(hook.details.event, d.name) && Due(hook.nextAttemptAt, now) && sendable(hook, d.name)
               then Some(Sending(hook, now)) else None)
  }

  /** The outcome of the request is saved with the webhook as it was listed; a save also creates. */
  function Answer(s: State, pid: nat, delivered: bool, status: int, now: int, saved: bool): State
    requires pid in s.deliveries && s.deliveries[pid].sending.Some?
  {
    var Sending(hook, at) := s.deliveries[pid].sending.value;
    State(
      if saved then s.hooks[hook.id := Recorded(hook, delivered, status, now)] else s.hooks,
      now, s.deliveries[pid := s.deliveries[pid].(sending := None)],
      s.logs[hook.id := Log(s, hook.id) + [Tried(at, now, delivered)]])
  }

  function Apply(sendable: (Webhook, string) -> bool, s: State, e: Event): State {
    match e
    case Created(id, details, now) =>
      if id in s.hooks then s
      else s.(hooks := s.hooks[id := Webhook(id, details, 0, 0, None, Time(s, now))], clock := Time(s, now), logs := s.logs[id := []])
    case Published(pid, name, listed) =>
      if pid in s.deliveries then s
      else s.(deliveries := s.deliveries[pid := Delivery(name, Records(s.hooks, listed), None)])
    case Looked(pid, now) =>
      if pid !in s.deliveries then s
      else s.(deliveries := s.deliveries[pid := Look(sendable, s.deliveries[pid], Time(s, now))], clock := Time(s, now))
    case Answered(pid, delivered, status, now, saved) =>
      if Sends(s, pid) then Answer(s, pid, delivered, status, Time(s, now), saved) else s
    case Updated(id, details, now, saved) =>
      if id !in s.hooks || !saved then s
      else s.(hooks := s.hooks[id := Renewed(s.hooks[id], details, Time(s, now))], clock := Time(s, now),
              logs := s.logs[id := Log(s, id) + [Edited]])
    case Deleted(id) => s.(hooks := s.hooks - {id}, logs := s.logs - {id})
  }

  predicate Sends(s: State, pid: nat) {
    pid in s.deliveries && s.deliveries[pid].sending.Some?
  }

  predicate SendsTo(s: State, pid: nat, id: string) {
    Sends(s, pid) && s.deliveries[pid].sending.value.hook.id == id
  }

  function Replay(sendable: (Webhook, string) -> bool, s: State, events: seq<Event>): State {
    if events == [] then s
    else Apply(sendable, Replay(sendable, s, events[..|events| - 1]), events[|events| - 1])
  }

  function Execute(sendable: (Webhook, string) -> bool, events: seq<Event>): State {
    Replay(sendable, INITIAL, events)
  }

  // ---------------------------------------------------------------- what every run keeps

  /** Records are stored under their IDs, and a request is sent to a webhook that was found due. */
  ghost predicate WellFormed(s: State) {
    && (forall id :: id in s.hooks ==> s.hooks[id].id == id)
    && (forall pid :: Sends(s, pid) ==>
          var Sending(hook, at) := s.deliveries[pid].sending.value;
          Due(hook.nextAttemptAt, at) && at <= s.clock)
  }

  lemma {:induction false} EveryRunIsWellFormed(sendable: (Webhook, string) -> bool, events: seq<Event>)
    ensures WellFormed(Execute(sendable, events))
    decreases |events|
  {
    hide Matches;
    if events != [] {
      EveryRunIsWellFormed(sendable, events[..|events| - 1]);
      StepKeepsWellFormed(sendable, Execute(sendable, events[..|events| - 1]), events[|events| - 1]);
    }
  }

  lemma StepKeepsWellFormed(sendable: (Webhook, string) -> bool, s: State, e: Event)
    requires WellFormed(s)
    ensures WellFormed(Apply(sendable, s, e))
  {
    hide Matches, Records, Recorded, Renewed;
    if e.Answered? && Sends(s, e.pid) {
      RecordedKeepsId(s.deliveries[e.pid].sending.value.hook, e.delivered, e.status, Time(s, e.now));
    } else if e.Updated? && e.id in s.hooks {
      RenewedKeepsId(s.hooks[e.id], e.details, Time(s, e.now));
    }
  }

  lemma RecordedKeepsId(hook: Webhook, delivered: bool, status: int, now: int)
    ensures Recorded(hook, delivered, status, now).id == hook.id
  {
  }

  lemma RenewedKeepsId(hook: Webhook, details: Details, now: int)
    ensures Renewed(hook, details, now).id == hook.id
  {
  }

  // ---------------------------------------------------------------- the webhook between list and record

  /** The step saves or removes the record of the webhook. */
  predicate Touches(s: State, e: Event, id: string) {
    match e
    case Created(other, _, _) => other == id
    case Published(_, _, _) => false
    case Looked(_, _) => false
    case Answered(pid, _, _, _, _) => SendsTo(s, pid, id)
    case Updated(other, _, _, _) => other == id
    case Deleted(other) => other == id
  }

  /** Step `l` begins the delivery whose request to the webhook is recorded in step `k`. */
  predicate Spans(sendable: (Webhook, string) -> bool, events: seq<Event>, l: nat, k: nat, id: string)
    requires l < k < |events|
  {
    && events[l].Published? && events[k].Answered? && events[l].pid == events[k].pid
    && events[l].pid !in Execute(sendable, events[..l]).deliveries
    && SendsTo(Execute(sendable, events[..k]), events[k].pid, id)
  }

  /**
   * Between a delivery's list and its record of a request to the webhook, nothing else
   * saves or deletes that webhook, and the record is saved.
   */
  ghost predicate RecordedAlone(sendable: (Webhook, string) -> bool, events: seq<Event>, id: string) {
    forall l, k :: 0 <= l < k < |events| && Spans(sendable, events, l, k, id) ==>
      events[k].saved && forall m :: l < m < k ==> !Touches(Execute(sendable, events[..m]), events[m], id)
  }

  /** A delivery holds webhooks as they were when it listed them. */
  lemma {:induction false} HeldSince(sendable: (Webhook, string) -> bool, events: seq<Event>, pid: nat, hook: Webhook) returns (l: nat)
    requires var s := Execute(sendable, events);
             pid in s.deliveries && (hook in s.deliveries[pid].todo || (Sends(s, pid) && s.deliveries[pid].sending.value.hook == hook))
    ensures l < |events| && events[l].Published? && events[l].pid == pid
    ensures var s := Execute(sendable, events[..l]);
            pid !in s.deliveries && hook.id in s.hooks && s.hooks[hook.id] == hook
    decreases |events|
  {
    hide Matches, Due, Recorded, Renewed, Apply;
    var before, e := events[..|events| - 1], events[|events| - 1];
    var s := Execute(sendable, before);
    StepKeepsHeld(sendable, s, e, pid, hook);
    if pid in s.deliveries {
      l := HeldSince(sendable, before, pid, hook);
      assert before[..l] == events[..l];
    } else {
      EveryRunIsWellFormed(sendable, before);
      l := |before|;
    }
  }

  lemma StepKeepsHeld(sendable: (Webhook, string) -> bool, s: State, e: Event, pid: nat, hook: Webhook)
    requires var after := Apply(sendable, s, e);
             pid in after.deliveries && (hook in after.deliveries[pid].todo || (Sends(after, pid) && after.deliveries[pid].sending.value.hook == hook))
    ensures if pid in s.deliveries then
              hook in s.deliveries[pid].todo || (Sends(s, pid) && s.deliveries[pid].sending.value.hook == hook)
            else e.Published? && e.pid == pid && IsStored(s.hooks, hook)
  {
    hide Matches, Due, Recorded, Renewed;
  }

  /** A webhook that nothing touches stays as it is, with its history. */
  lemma {:induction false} HookStays(sendable: (Webhook, string) -> bool, events: seq<Event>, n: nat, id: string)
    requires n <= |events| && id in Execute(sendable, events[..n]).hooks
    requires forall m :: n <= m < |events| ==> !Touches(Execute(sendable, events[..m]), events[m], id)
    ensures id in Execute(sendable, events).hooks
    ensures Execute(sendable, events).hooks[id] == Execute(sendable, events[..n]).hooks[id]
    decreases |events|
  {
    hide Apply, Touches;
    if n == |events| {
      assert events[..n] == events;
    } else {
      var before := events[..|events| - 1];
      assert forall m :: 0 <= m <= |before| ==> before[..m] == events[..m];
      HookStays(sendable, before, n, id);
      UntouchedStays(sendable, Execute(sendable, before), events[|before|], id);
    }
  }

  lemma UntouchedStays(sendable: (Webhook, string) -> bool, s: State, e: Event, id: string)
    requires !Touches(s, e, id)
    ensures id in Apply(sendable, s, e).hooks <==> id in s.hooks
    ensures id in s.hooks ==> Apply(sendable, s, e).hooks[id] == s.hooks[id]
    ensures Log(Apply(sendable, s, e), id) == Log(s, id)
  {
    hide Matches, Due, Records, Renewed, Look;
    if e.Answered? && Sends(s, e.pid) {
      RecordedKeepsId(s.deliveries[e.pid].sending.value.hook, e.delivered, e.status, Time(s, e.now));
    }
  }

  // ---------------------------------------------------------------- spacing

  /** The stored counters say what the history says, and every request was sent when it was due. */
  ghost predicate InStep(s: State, id: string) {
    id in s.hooks ==> Tracks(s.hooks[id], Log(s, id)) && Spaced(Log(s, id))
  }

  /**
   * However deliveries overlap, and whatever they do to other webhooks: as long as
   * nothing else saves a webhook between a delivery's list and its record, the stored
   * counters follow its history and its requests are spaced by the back-off.
   */
  lemma {:induction false} DeliveriesAreSpaced(sendable: (Webhook, string) -> bool, events: seq<Event>, id: string)
    requires RecordedAlone(sendable, events, id)
    ensures InStep(Execute(sendable, events), id)
    decreases |events|
  {
    hide Apply, InStep, WellFormed, Sends;
    if events == [] {
      NothingInStep(id);
    } else {
      var before, e := events[..|events| - 1], events[|events| - 1];
      AlonePrefix(sendable, events, id);
      DeliveriesAreSpaced(sendable, before, id);
      EveryRunIsWellFormed(sendable, before);
      var s := Execute(sendable, before);
      if e.Answered? && SendsTo(s, e.pid, id) {
        AnsweredAlone(sendable, events, id);
        AnswerKeepsInStep(sendable, s, e, id);
      } else {
        OthersKeepInStep(sendable, s, e, id);
      }
    }
  }

  lemma NothingInStep(id: string)
    ensures InStep(INITIAL, id)
  {
  }

  lemma AlonePrefix(sendable: (Webhook, string) -> bool, events: seq<Event>, id: string)
    requires RecordedAlone(sendable, events, id) && events != []
    ensures RecordedAlone(sendable, events[..|events| - 1], id)
  {
    hide Execute, Touches, SendsTo;
    var before := events[..|events| - 1];
    assert forall m :: 0 <= m <= |before| ==> before[..m] == events[..m];
    assert forall m :: 0 <= m < |before| ==> before[m] == events[m];
    forall l, k | 0 <= l < k < |before| && Spans(sendable, before, l, k, id)
      ensures before[k].saved && forall m :: l < m < k ==> !Touches(Execute(sendable, before[..m]), before[m], id)
    {
      assert Spans(sendable, events, l, k, id);
    }
  }

  /** Then a record finds the webhook as it was listed. */
  lemma AnsweredAlone(sendable: (Webhook, string) -> bool, events: seq<Event>, id: string)
    requires RecordedAlone(sendable, events, id) && events != []
    requires events[|events| - 1].Answered? && SendsTo(Execute(sendable, events[..|events| - 1]), events[|events| - 1].pid, id)
    ensures events[|events| - 1].saved
    ensures var s := Execute(sendable, events[..|events| - 1]);
            id in s.hooks && s.hooks[id] == s.deliveries[events[|events| - 1].pid].sending.value.hook
  {
    hide Apply, Touches;
    var before, e := events[..|events| - 1], events[|events| - 1];
    var hook := Execute(sendable, before).deliveries[e.pid].sending.value.hook;
    var l := HeldSince(sendable, before, e.pid, hook);
    assert forall m :: 0 <= m <= |before| ==> before[..m] == events[..m];
    assert forall m :: 0 <= m < |before| ==> before[m] == events[m];
    assert Spans(sendable, events, l, |before|, id);
    PublishingKeeps(sendable, Execute(sendable, before[..l]), before[l], id);
    assert before[..l + 1][..l] == before[..l];
    HookStays(sendable, before, l + 1, id);
  }

  lemma PublishingKeeps(sendable: (Webhook, string) -> bool, s: State, e: Event, id: string)
    requires e.Published?
    ensures Apply(sendable, s, e).hooks == s.hooks
  {
  }

  lemma AnswerKeepsInStep(sendable: (Webhook, string) -> bool, s: State, e: Event, id: string)
    requires WellFormed(s) && InStep(s, id) && e.Answered? && e.saved && SendsTo(s, e.pid, id)
    requires id in s.hooks && s.hooks[id] == s.deliveries[e.pid].sending.value.hook
    ensures InStep(Apply(sendable, s, e), id)
  {
    hide Spaced, Tracks, Recorded, NextAttempt, Failures;
    var Sending(hook, at) := s.deliveries[e.pid].sending.value;
    RecordedKeepsId(hook, e.delivered, e.status, Time(s, e.now));
    TracksDue(hook, Log(s, id), at);
    RecordKeepsExactly(hook, hook, Log(s, id), at, Time(s, e.now), e.delivered, e.status);
  }

  lemma TracksDue(hook: Webhook, log: seq<Entry>, at: int)
    requires Tracks(hook, log)
    ensures Due(hook.nextAttemptAt, at) <==> Due(NextAttempt(log), at)
  {
  }

  lemma OthersKeepInStep(sendable: (Webhook, string) -> bool, s: State, e: Event, id: string)
    requires InStep(s, id) && !(e.Answered? && SendsTo(s, e.pid, id))
    ensures InStep(Apply(sendable, s, e), id)
  {
    hide Spaced, Apply;
    if !Touches(s, e, id) {
      UntouchedStays(sendable, s, e, id);
    } else {
      EditKeepsInStep(sendable, s, e, id);
    }
  }

  lemma EditKeepsInStep(sendable: (Webhook, string) -> bool, s: State, e: Event, id: string)
    requires InStep(s, id) && !e.Answered? && Touches(s, e, id)
    ensures InStep(Apply(sendable, s, e), id)
  {
    hide Look, Records;
    if e.Updated? && id in s.hooks {
      EditForgets(Log(s, id));
    }
  }

  /**
   * What a record makes of a history, when the webhook stored meanwhile is another one
   * than that listed: the counters follow it exactly when the request was delivered or
   * the failures counted are the same, and it stays spaced exactly when the request
   * was due by the webhook stored.
   */
  lemma RecordKeepsExactly(stored: Webhook, listed: Webhook, log: seq<Entry>, at: int, now: int, delivered: bool, status: int)
    requires Tracks(stored, log) && Spaced(log) && at <= now
    ensures Tracks(Recorded(listed, delivered, status, now), log + [Tried(at, now, delivered)])
       <==> delivered || listed.failCount == stored.failCount
    ensures Spaced(log + [Tried(at, now, delivered)]) <==> Due(stored.nextAttemptAt, at)
  {
    hide Backoff;
    var entry := Tried(at, now, delivered);
    var longer := log + [entry];
    assert longer[..|log|] == log;
    if Due(NextAttempt(log), at) {
      SpacedMore(log, entry);
    } else {
      assert longer[|log|] == entry;
    }
    if !delivered {
      FailureCounted(log, entry);
    }
  }

  /** After a run of failures in such a run of events the next request comes no earlier than the waits add up to. */
  lemma RequestsAreSpaced(sendable: (Webhook, string) -> bool, events: seq<Event>, id: string, i: nat, next: nat)
    requires RecordedAlone(sendable, events, id) && id in Execute(sendable, events).hooks
    requires var log := Log(Execute(sendable, events), id);
             i < next < |log| && FailingRun(log, i, next - 1) && log[next].Tried?
    ensures var log := Log(Execute(sendable, events), id);
            log[next].at >= log[i].recordedAt + Waits(next - i)
  {
    hide Execute, Spaced, FailingRun, Waits, Tracks;
    DeliveriesAreSpaced(sendable, events, id);
    AttemptsAreSpaced(Log(Execute(sendable, events), id), i, next);
  }

  // ---------------------------------------------------------------- what overlapping does break

  lemma ReplayStep(sendable: (Webhook, string) -> bool, s: State, events: seq<Event>, e: Event)
    ensures Replay(sendable, s, events + [e]) == Apply(sendable, Replay(sendable, s, events), e)
  {
    assert (events + [e])[..|events|] == events;
  }

  /** Two deliveries that list a due webhook before either records both send, and only one failure is counted. */
  lemma OverlappingDeliveriesCrowd(
    sendable: (Webhook, string) -> bool, s: State, id: string, name: string, p: nat, q: nat, listed: seq<string>)
    returns (events: seq<Event>)
    requires p != q && p !in s.deliveries && q !in s.deliveries && listed != [] && listed[0] == id
    requires id in s.hooks && s.hooks[id].id == id && id in s.logs && InStep(s, id)
    requires Matches(s.hooks[id].details.event, name) && sendable(s.hooks[id], name) && Due(s.hooks[id].nextAttemptAt, s.clock)
    ensures var after := Replay(sendable, s, events);
            && id in after.hooks && after.hooks[id].failCount == s.hooks[id].failCount + 1
            && Log(after, id) == s.logs[id] + [Tried(s.clock, s.clock, false), Tried(s.clock, s.clock, false)]
            && !Tracks(after.hooks[id], Log(after, id)) && !Spaced(Log(after, id))
  {
    hide Matches, Tracks, Spaced, Recorded, NextAttempt;
    var hook, now, log := s.hooks[id], s.clock, s.logs[id];
    var todo := Records(s.hooks, listed);
    assert todo[0] == hook;
    hide Records;
    RecordedKeepsId(hook, false, 0, now);
    var waiting, sending := Delivery(name, todo, None), Delivery(name, todo[1..], Some(Sending(hook, now)));
    var idle := sending.(sending := None);
    events := [Published(p, name, listed)];
    assert events[..0] == [];
    var s1 := s.(deliveries := s.deliveries[p := waiting]);
    assert Replay(sendable, s, events) == s1;
    ReplayStep(sendable, s, events, Published(q, name, listed));
    events := events + [Published(q, name, listed)];
    var s2 := s.(deliveries := s.deliveries[p := waiting][q := waiting]);
    assert Replay(sendable, s, events) == s2;
    ReplayStep(sendable, s, events, Looked(p, now));
    events := events + [Looked(p, now)];
    var s3 := s.(deliveries := s.deliveries[p := sending][q := waiting]);
    assert Replay(sendable, s, events) == s3;
    ReplayStep(sendable, s, events, Looked(q, now));
    events := events + [Looked(q, now)];
    var s4 := s.(deliveries := s.deliveries[p := sending][q := sending]);
    assert Replay(sendable, s, events) == s4;
    var answer := Answered(p, false, 0, now, true);
    ReplayStep(sendable, s, events, answer);
    events := events + [answer];
    var s5 := Replay(sendable, s, events);
    assert s5.hooks[id] == Recorded(hook, false, 0, now) && s5.logs[id] == log + [Tried(now, now, false)] && s5.clock == now;
    assert q in s5.deliveries && s5.deliveries[q] == sending;
    var second := Answered(q, false, 0, now, true);
    ReplayStep(sendable, s, events, second);
    events := events + [second];
    var after := Replay(sendable, s, events);
    assert after.hooks[id] == Recorded(hook, false, 0, now);
    assert after.logs[id] == log + [Tried(now, now, false)] + [Tried(now, now, false)];
    TwoAtOnce(hook, log, now);
  }

  lemma TwoAtOnce(hook: Webhook, log: seq<Entry>, now: int)
    requires Tracks(hook, log) && Spaced(log) && Due(hook.nextAttemptAt, now)
    ensures var entry, failed := Tried(now, now, false), Recorded(hook, false, 0, now);
            && failed.failCount == hook.failCount + 1
            && !Tracks(failed, log + [entry] + [entry]) && !Spaced(log + [entry] + [entry])
            && log + [entry] + [entry] == log + [entry, entry]
  {
    hide Spaced, Backoff, NextAttempt;
    var entry, failed := Tried(now, now, false), Recorded(hook, false, 0, now);
    RecordKeepsExactly(hook, hook, log, now, now, false, 0);
    RecordKeepsExactly(failed, hook, log + [entry], now, now, false, 0);
    BackoffGrows(hook.failCount + 1, hook.failCount + 1);
  }

  /** A record after an edit or a deletion brings the webhook back as it was listed. */
  lemma LateRecordUndoes(sendable: (Webhook, string) -> bool, s: State, pid: nat, e: Event, delivered: bool, status: int, now: int)
    requires WellFormed(s) && Sends(s, pid)
    requires var hook := s.deliveries[pid].sending.value.hook;
             (e.Deleted? && e.id == hook.id) || (e.Updated? && e.id == hook.id && e.saved && hook.id in s.hooks)
    ensures var hook := s.deliveries[pid].sending.value.hook;
            var between := Apply(sendable, s, e);
            var after := Apply(sendable, between, Answered(pid, delivered, status, now, true));
            && (if e.Deleted? then hook.id !in between.hooks else between.hooks[hook.id].details == e.details)
            && hook.id in after.hooks && after.hooks[hook.id].details == hook.details
  {
  }
}
