/** Webhook delivery and its back-off after failures: internal/webhooks/service.go. */
module WebhookBackoff {
  import opened Basics

  // Durations are int64 nanoseconds.
  type Duration = d: int | -0x8000_0000_0000_0000 <= d < 0x8000_0000_0000_0000

  const MINUTE: Duration := 60_000_000_000
  const HOUR: Duration := 3600_000_000_000

  /** What a webhook's owner decides. */
  datatype Details = Details(
    ownerId: string, event: string, url: string, method_: string, headers: map<string, string>, body: string)

  datatype Webhook = Webhook(
    id: string, details: Details, failCount: nat, lastStatus: int, nextAttemptAt: Option<int>, updatedAt: int)

  /** The input of a create or an update; an update leaves out what is empty. */
  datatype Request = Request(
    ownerId: string, event: string, url: string, method_: string, headers: Option<map<string, string>>, body: string)

  datatype Error = NotFound | Conflict | StoreFailed

  /** How an attempt ends: before a request is sent, with no or a failing response, or delivered. */
  datatype Outcome = NotSent | Refused(status: int) | Delivered(status: int)

  /** A webhook's history: requests sent, with the clock when each was decided on and when it was recorded, and edits. */
  datatype Entry = Tried(at: int, recordedAt: int, delivered: bool) | Edited

  predicate Matches(pattern: string, name: string) {
    || pattern == "*" || pattern == name
    || (pattern != "" && pattern[|pattern| - 1] == '*' && pattern[..|pattern| - 1] <= name)
  }

  // ---------------------------------------------------------------- back-off

  function Power(n: nat): nat {
    if n == 0 then 1 else 2 * Power(n - 1)
  }

  /** The wait after the `failures`-th failure in a row: a minute, doubled each time, up to an hour. */
  function Backoff(failures: int): int {
    if failures <= 0 then 0 else Min(HOUR, Power(failures - 1) * MINUTE)
  }

  lemma {:induction false} PowerGrows(m: nat, n: nat)
    requires m <= n
    ensures 1 <= Power(m) <= Power(n)
    decreases n
  {
    if n == 0 {
    } else if m == n {
      PowerGrows(m - 1, n - 1);
    } else {
      PowerGrows(m, n - 1);
    }
  }

  /** No product overflows a Duration. */
  method BackoffFor(failures: int) returns (delay: Duration)
    ensures delay == Backoff(failures)
  {
    if failures <= 0 {
      return 0;
    }
    delay := MINUTE;
    for index := 1 to failures
      invariant delay == Power(index - 1) * MINUTE && delay < HOUR
    {
      delay := delay * 2;
      if delay >= HOUR {
        PowerGrows(index, failures - 1);
        return HOUR;
      }
    }
  }

  /** The wait never shrinks with more failures, and from the seventh on it is an hour. */
  lemma BackoffGrows(m: int, n: int)
    requires 1 <= m <= n
    ensures MINUTE <= Backoff(m) <= Backoff(n) <= HOUR
    ensures Backoff(n) == HOUR <==> n >= 7
  {
    PowerGrows(m - 1, n - 1);
    assert Power(5) == 32 && Power(6) == 64;
    if n >= 7 {
      PowerGrows(6, n - 1);
    } else {
      PowerGrows(n - 1, 5);
    }
  }

  // ---------------------------------------------------------------- histories

  /** The failed requests since the last delivery or edit. */
  function Failures(log: seq<Entry>): nat {
    if log == [] then 0
    else
      match log[|log| - 1]
      case Tried(_, _, delivered) => if delivered then 0 else Failures(log[..|log| - 1]) + 1
      case Edited => 0
  }

  /** When the next request may be sent, if it must wait. */
  function NextAttempt(log: seq<Entry>): Option<int> {
    if Failures(log) == 0 then None else Some(log[|log| - 1].recordedAt + Backoff(Failures(log)))
  }

  predicate Due(next: Option<int>, now: int) {
    next.None? || now >= next.value
  }

  /** Every request was sent when it was due, by a clock that does not run backwards. */
  ghost predicate Spaced(log: seq<Entry>) {
    forall i :: 0 <= i < |log| && log[i].Tried? ==> log[i].at <= log[i].recordedAt && Due(NextAttempt(log[..i]), log[i].at)
  }

  /** The stored counters say what the history says. */
  predicate Tracks(hook: Webhook, log: seq<Entry>) {
    hook.failCount == Failures(log) && hook.nextAttemptAt == NextAttempt(log)
  }

  lemma SpacedMore(log: seq<Entry>, entry: Entry)
    requires Spaced(log) && (entry.Tried? ==> entry.at <= entry.recordedAt && Due(NextAttempt(log), entry.at))
    ensures Spaced(log + [entry])
  {
    hide NextAttempt;
    var longer := log + [entry];
    assert longer[..|log|] == log;
    forall i | 0 <= i < |longer| && longer[i].Tried?
      ensures longer[i].at <= longer[i].recordedAt && Due(NextAttempt(longer[..i]), longer[i].at)
    {
      if i < |log| {
        assert longer[..i] == log[..i] && longer[i] == log[i];
      }
    }
  }

  lemma EditForgets(log: seq<Entry>)
    ensures Failures(log + [Edited]) == 0
    ensures Spaced(log) ==> Spaced(log + [Edited])
  {
    hide Spaced;
    if Spaced(log) {
      SpacedMore(log, Edited);
    }
  }

  lemma DeliveryForgets(log: seq<Entry>, entry: Entry)
    requires entry.Tried? && entry.delivered
    ensures Failures(log + [entry]) == 0 && NextAttempt(log + [entry]) == None
  {
  }

  lemma FailureCounted(log: seq<Entry>, entry: Entry)
    requires entry.Tried? && !entry.delivered
    ensures Failures(log + [entry]) == Failures(log) + 1
    ensures NextAttempt(log + [entry]) == Some(entry.recordedAt + Backoff(Failures(log) + 1))
  {
    assert (log + [entry])[..|log|] == log;
  }

  /** Entries `i` to `j`, both included, are failed requests, and the first follows no failure. */
  predicate FailingRun(log: seq<Entry>, i: nat, j: nat) {
    && i <= j < |log| && Failures(log[..i]) == 0
    && forall k :: i <= k <= j ==> log[k].Tried? && !log[k].delivered
  }

  /** The waits after the first `n` failures in a row. */
  function Waits(n: nat): int {
    if n == 0 then 0 else Waits(n - 1) + Backoff(n)
  }

  lemma {:induction false} RunCounts(log: seq<Entry>, i: nat, j: nat)
    requires FailingRun(log, i, j)
    ensures Failures(log[..j + 1]) == j - i + 1
    decreases j
  {
    assert log[..j + 1][..j] == log[..j];
    if i < j {
      RunCounts(log, i, j - 1);
    }
  }

  /**
   * After `n` failed requests in a row the next request, whatever becomes of it, is
   * sent no earlier than the first was recorded plus all the waits in between.
   */
  lemma {:induction false} AttemptsAreSpaced(log: seq<Entry>, i: nat, next: nat)
    requires Spaced(log) && i < next < |log| && FailingRun(log, i, next - 1) && log[next].Tried?
    ensures log[next].at >= log[i].recordedAt + Waits(next - i)
    ensures log[next].at >= log[i].at + Waits(next - i)
    ensures log[next].at >= log[next - 1].recordedAt + Backoff(next - i)
    decreases next
  {
    hide Backoff;
    RunCounts(log, i, next - 1);
    assert log[..next][|log[..next]| - 1] == log[next - 1];
    assert NextAttempt(log[..next]) == Some(log[next - 1].recordedAt + Backoff(next - i));
    if i < next - 1 {
      AttemptsAreSpaced(log, i, next - 1);
    }
  }

  /** What the record of a request makes of a webhook. */
  function Recorded(hook: Webhook, delivered: bool, status: int, now: int): Webhook {
    if delivered then hook.(failCount := 0, lastStatus := status, nextAttemptAt := None, updatedAt := now)
    else hook.(failCount := hook.failCount + 1, lastStatus := status,
               nextAttemptAt := Some(now + Backoff(hook.failCount + 1)), updatedAt := now)
  }

  /** What an edit makes of it. */
  function Renewed(hook: Webhook, details: Details, now: int): Webhook {
    Webhook(hook.id, details, 0, 0, None, now)
  }

  // ---------------------------------------------------------------- the code

  class Service {
    var hooks: map<string, Webhook>
    var clock: int
    ghost var logs: map<string, seq<Entry>>
    const reliable: bool // saves succeed
    const sendable: (Webhook, string) -> bool // the request for an event can be built
    const upper: string -> string // strings.ToUpper

    ghost predicate Valid()
      reads this
    {
      && logs.Keys == hooks.Keys
      && (forall id :: id in hooks ==> hooks[id].id == id)
      && (reliable ==> forall id :: id in hooks ==> Tracks(hooks[id], logs[id]) && Spaced(logs[id]))
    }

    constructor (reliable: bool, sendable: (Webhook, string) -> bool, upper: string -> string)
      ensures Valid() && hooks == map[] && this.reliable == reliable && this.sendable == sendable && this.upper == upper
    {
      this.reliable, this.sendable, this.upper := reliable, sendable, upper;
      hooks, logs := map[], map[];
    }

    /** The clock may stand still but does not run backwards. */
    method Now() returns (now: int)
      modifies this`clock
      ensures now == clock && clock >= old(clock)
    {
      var reading: int := *;
      if reading > clock {
        clock := reading;
      }
      now := clock;
    }

    method Save(hook: Webhook) returns (ok: bool)
      modifies this`hooks
      ensures hooks == if ok then old(hooks)[hook.id := hook] else old(hooks)
      ensures reliable ==> ok
    {
      ok := *;
      if reliable {
        ok := true;
      }
      if ok {
        hooks := hooks[hook.id := hook];
      }
    }

    method ShouldAttempt(hook: Webhook) returns (yes: bool)
      modifies this`clock
      ensures clock >= old(clock)
      ensures yes <==> Due(hook.nextAttemptAt, clock)
    {
      if hook.nextAttemptAt.None? {
        return true;
      }
      var now := Now();
      return now >= hook.nextAttemptAt.value;
    }

    method RecordFailure(hook: Webhook, status: int)
      requires Valid() && hook.id in hooks && hooks[hook.id] == hook
      requires reliable ==> Due(NextAttempt(logs[hook.id]), clock)
      modifies this
      ensures Valid()
      ensures logs == old(logs)[hook.id := old(logs)[hook.id] + [Tried(old(clock), clock, false)]]
      ensures Saved(reliable, old(hooks), hooks, Recorded(hook, false, status, clock))
      ensures clock >= old(clock)
    {
      hide Spaced, Backoff, NextAttempt, Failures;
      ghost var at, log := clock, logs[hook.id];
      var now := Now();
      var delay := BackoffFor(hook.failCount + 1);
      var failed := hook.(failCount := hook.failCount + 1, lastStatus := status, nextAttemptAt := Some(now + delay), updatedAt := now);
      var ok := Save(failed);
      logs := logs[hook.id := log + [Tried(at, now, false)]];
      if reliable {
        SpacedMore(log, Tried(at, now, false));
        FailureCounted(log, Tried(at, now, false));
      }
    }

    method RecordSuccess(hook: Webhook, status: int)
      requires Valid() && hook.id in hooks && hooks[hook.id] == hook
      requires reliable ==> Due(NextAttempt(logs[hook.id]), clock)
      modifies this
      ensures Valid()
      ensures logs == old(logs)[hook.id := old(logs)[hook.id] + [Tried(old(clock), clock, true)]]
      ensures Saved(reliable, old(hooks), hooks, Recorded(hook, true, status, clock))
      ensures clock >= old(clock)
    {
      hide Spaced, NextAttempt, Failures;
      ghost var at, log := clock, logs[hook.id];
      var now := Now();
      var delivered := hook.(failCount := 0, lastStatus := status, nextAttemptAt := None, updatedAt := now);
      var ok := Save(delivered);
      logs := logs[hook.id := log + [Tried(at, now, true)]];
      if reliable {
        SpacedMore(log, Tried(at, now, true));
        DeliveryForgets(log, Tried(at, now, true));
      }
    }

    /** Sends one request, if it can be built, and records how it ended. */
    method Deliver(hook: Webhook, name: string) returns (outcome: Outcome)
      requires Valid() && hook.id in hooks && hooks[hook.id] == hook
      requires reliable ==> Due(NextAttempt(logs[hook.id]), clock)
      modifies this
      ensures Valid() && Aside(old(hooks), hooks, hook.id) && clock >= old(clock)
      ensures outcome.NotSent? <==> !sendable(hook, name)
      ensures logs == if outcome.NotSent? then old(logs)
                      else old(logs)[hook.id := old(logs)[hook.id] + [Tried(old(clock), clock, outcome.Delivered?)]]
      ensures outcome.NotSent? ==> hooks == old(hooks)
    {
      if !sendable(hook, name) {
        return NotSent;
      }
      var answered: bool, status: int := *, *;
      if !answered {
        RecordFailure(hook, 0);
        return Refused(0);
      }
      if status >= 400 {
        RecordFailure(hook, status);
        return Refused(status);
      }
      RecordSuccess(hook, status);
      return Delivered(status);
    }

    /**
     * Every webhook that matches the event and is due is attempted once; the others
     * stay as they are.
     */
    method DeliverEvent(name: string)
      requires Valid()
      modifies this
      ensures Valid() && hooks.Keys == old(hooks).Keys && clock >= old(clock)
      ensures forall id :: id in hooks ==>
                Handled(name, sendable, old(hooks)[id], old(logs)[id], hooks[id], logs[id], old(clock), clock)
    {
      hide Tracks, Spaced, NextAttempt, Matches, Handled, HandledSoFar, Aside;
      var loaded := hooks;
      var ids := loaded.Keys;
      ghost var start, before := clock, logs;
      NoneHandled(name, sendable, ids, loaded, before, start);
      while ids != {}
        invariant Valid() && clock >= start && hooks.Keys == loaded.Keys && ids <= loaded.Keys
        invariant forall id :: id in ids ==> hooks[id] == loaded[id]
        invariant HandledSoFar(name, sendable, ids, loaded, before, hooks, logs, start, clock)
        decreases |ids|
      {
        var id :| id in ids;
        ghost var hooks', logs', clock' := hooks, logs, clock;
        DeliverTo(loaded[id], name, start);
        OthersKept(hooks', hooks, id);
        OneMoreHandled(name, sendable, ids, id, loaded, before, hooks', logs', hooks, logs, start, clock', clock);
        ids := ids - {id};
      }
      AllHandled(name, sendable, loaded, before, hooks, logs, start, clock);
    }

    /** One turn of the loop of DeliverEvent, which began at `start`. */
    method DeliverTo(hook: Webhook, name: string, ghost start: int)
      requires Valid() && hook.id in hooks && hooks[hook.id] == hook && start <= clock
      modifies this
      ensures Valid() && Aside(old(hooks), hooks, hook.id) && clock >= old(clock)
      ensures Aside(old(logs), logs, hook.id)
      ensures Handled(name, sendable, hook, old(logs)[hook.id], hooks[hook.id], logs[hook.id], start, clock)
    {
      hide Spaced, NextAttempt, Matches;
      if !Matches(hook.details.event, name) {
        return;
      }
      var due := ShouldAttempt(hook);
      if !due {
        return;
      }
      ghost var at := clock;
      var outcome := Deliver(hook, name);
      if !outcome.NotSent? {
        AttemptHandled(name, sendable, hook, old(logs)[hook.id], hooks[hook.id], start, at, clock, outcome.Delivered?);
      }
    }

    method Create(id: string, request: Request) returns (r: Result<Webhook, Error>)
      requires Valid()
      modifies this
      ensures Valid() && clock >= old(clock)
      ensures r.Ok? ==>
                && id !in old(hooks) && request.ownerId != "" && request.event != "" && request.url != ""
                && r.value == Webhook(id, NewDetails(request, upper), 0, 0, None, clock)
                && hooks == old(hooks)[id := r.value] && logs == old(logs)[id := []]
      ensures r.Err? ==> hooks == old(hooks) && logs == old(logs)
      ensures (reliable && id !in old(hooks) && request.ownerId != "" && request.event != "" && request.url != "") ==> r.Ok?
    {
      if request.ownerId == "" || request.event == "" || request.url == "" {
        return Err(NotFound);
      }
      var method_ := upper(request.method_);
      if method_ == "" {
        method_ := "POST";
      }
      var now := Now();
      if id in hooks {
        return Err(Conflict);
      }
      var hook := Webhook(
        id, Details(request.ownerId, request.event, request.url, method_, request.headers.UnwrapOr(map[]), request.body), 0, 0, None, now);
      var ok := Save(hook);
      if !ok {
        return Err(StoreFailed);
      }
      logs := logs[id := []];
      return Ok(hook);
    }

    /** A webhook is its owner's alone. */
    method Get(ownerId: string, id: string) returns (r: Result<Webhook, Error>)
      ensures r.Ok? <==> id != "" && id in hooks && hooks[id].details.ownerId == ownerId
      ensures r.Ok? ==> r.value == hooks[id]
      ensures r.Err? ==> r.error == NotFound
    {
      if id == "" || id !in hooks || hooks[id].details.ownerId != ownerId {
        return Err(NotFound);
      }
      return Ok(hooks[id]);
    }

    method EditDetails(before: Details, request: Request) returns (details: Details)
      ensures details == EditedDetails(before, request, upper)
    {
      details := before;
      if request.event != "" {
        details := details.(event := request.event);
      }
      if request.url != "" {
        details := details.(url := request.url);
      }
      if request.method_ != "" {
        details := details.(method_ := upper(request.method_));
      }
      if request.headers.Some? {
        details := details.(headers := request.headers.value);
      }
      if request.body != "" {
        details := details.(body := request.body);
      }
    }

    /** An edit by the owner changes what the request names and forgets the failures. */
    method Update(ownerId: string, id: string, request: Request) returns (r: Result<Webhook, Error>)
      requires Valid()
      modifies this
      ensures Valid() && clock >= old(clock)
      ensures r.Ok? ==>
                && id in old(hooks) && old(hooks)[id].details.ownerId == ownerId
                && r.value == Renewed(old(hooks)[id], EditedDetails(old(hooks)[id].details, request, upper), clock)
                && hooks == old(hooks)[id := r.value] && logs == old(logs)[id := old(logs)[id] + [Edited]]
      ensures r.Err? ==> hooks == old(hooks) && logs == old(logs)
      ensures (reliable && id != "" && id in old(hooks) && old(hooks)[id].details.ownerId == ownerId) ==> r.Ok?
    {
      hide Spaced, Backoff, EditedDetails;
      var found := Get(ownerId, id);
      if found.Err? {
        return found;
      }
      var details := EditDetails(found.value.details, request);
      var now := Now();
      var hook := found.value.(details := details, failCount := 0, lastStatus := 0, nextAttemptAt := None, updatedAt := now);
      var ok := Save(hook);
      if !ok {
        return Err(StoreFailed);
      }
      EditForgets(logs[id]);
      logs := logs[id := logs[id] + [Edited]];
      return Ok(hook);
    }

    method Delete(ownerId: string, id: string) returns (r: Result<(), Error>)
      requires Valid()
      modifies this
      ensures Valid()
      ensures r.Ok? ==>
                && id in old(hooks) && old(hooks)[id].details.ownerId == ownerId
                && hooks == old(hooks) - {id} && logs == old(logs) - {id}
      ensures r.Err? ==> hooks == old(hooks) && logs == old(logs)
    {
      var found := Get(ownerId, id);
      if found.Err? {
        return Err(found.error);
      }
      var ok: bool := *;
      if !ok {
        return Err(StoreFailed);
      }
      hooks, logs := hooks - {id}, logs - {id};
      return Ok(());
    }
  }

  function NewDetails(request: Request, upper: string -> string): Details {
    var method_ := upper(request.method_);
    Details(request.ownerId, request.event, request.url, if method_ == "" then "POST" else method_,
            request.headers.UnwrapOr(map[]), request.body)
  }

  /** The details after an update, which cannot change the owner. */
  function EditedDetails(details: Details, request: Request, upper: string -> string): Details {
    Details(
      details.ownerId,
      if request.event != "" then request.event else details.event,
      if request.url != "" then request.url else details.url,
      if request.method_ != "" then upper(request.method_) else details.method_,
      request.headers.UnwrapOr(details.headers),
      if request.body != "" then request.body else details.body)
  }

  /** The record was saved; without reliable saves it may have been lost. */
  ghost predicate Saved(reliable: bool, before: map<string, Webhook>, after: map<string, Webhook>, hook: Webhook) {
    after == before[hook.id := hook] || (!reliable && after == before)
  }

  /** The entries of the other webhooks are untouched. */
  ghost predicate Aside<T>(before: map<string, T>, after: map<string, T>, id: string) {
    before.Keys == after.Keys && forall other :: other in before && other != id ==> after[other] == before[other]
  }

  /** What an event handled from `start` to `end` does to one webhook. */
  ghost predicate Handled(
    name: string, sendable: (Webhook, string) -> bool,
    before: Webhook, earlier: seq<Entry>, after: Webhook, log: seq<Entry>, start: int, end: int)
  {
    if Matches(before.details.event, name) && sendable(before, name) && Due(before.nextAttemptAt, start) then
      Attempted(before, earlier, log, start, end)
    else
      || (after == before && log == earlier)
      || (Matches(before.details.event, name) && sendable(before, name) && Attempted(before, earlier, log, start, end))
  }

  /** One request was sent, at a time when it was due. */
  ghost predicate Attempted(before: Webhook, earlier: seq<Entry>, log: seq<Entry>, start: int, end: int) {
    && |log| == |earlier| + 1 && log[..|earlier|] == earlier
    && var entry := log[|earlier|];
       entry.Tried? && start <= entry.at <= entry.recordedAt <= end && Due(before.nextAttemptAt, entry.at)
  }

  lemma AttemptHandled(
    name: string, sendable: (Webhook, string) -> bool,
    before: Webhook, earlier: seq<Entry>, after: Webhook, start: int, at: int, end: int, delivered: bool)
    requires Matches(before.details.event, name) && sendable(before, name)
    requires start <= at <= end && Due(before.nextAttemptAt, at)
    ensures Handled(name, sendable, before, earlier, after, earlier + [Tried(at, end, delivered)], start, end)
  {
    hide Matches;
    assert (earlier + [Tried(at, end, delivered)])[..|earlier|] == earlier;
  }

  lemma StillHandled(
    name: string, sendable: (Webhook, string) -> bool,
    before: Webhook, earlier: seq<Entry>, after: Webhook, log: seq<Entry>, start: int, end: int, later: int)
    requires Handled(name, sendable, before, earlier, after, log, start, end) && end <= later
    ensures Handled(name, sendable, before, earlier, after, log, start, later)
  {
  }

  /** The webhooks not in `ids` were handled, and those in `ids` are as they were. */
  ghost predicate HandledSoFar(
    name: string, sendable: (Webhook, string) -> bool, ids: set<string>,
    loaded: map<string, Webhook>, before: map<string, seq<Entry>>,
    hooks: map<string, Webhook>, logs: map<string, seq<Entry>>, start: int, end: int)
  {
    && loaded.Keys == before.Keys == hooks.Keys == logs.Keys
    && forall id :: id in hooks ==>
         if id in ids then hooks[id] == loaded[id] && logs[id] == before[id]
         else Handled(name, sendable, loaded[id], before[id], hooks[id], logs[id], start, end)
  }

  lemma NoneHandled(
    name: string, sendable: (Webhook, string) -> bool, ids: set<string>,
    hooks: map<string, Webhook>, logs: map<string, seq<Entry>>, start: int)
    requires ids == hooks.Keys == logs.Keys
    ensures HandledSoFar(name, sendable, ids, hooks, logs, hooks, logs, start, start)
  {
  }

  lemma OthersKept(before: map<string, Webhook>, after: map<string, Webhook>, id: string)
    requires Aside(before, after, id)
    ensures after.Keys == before.Keys && forall other :: other in before && other != id ==> after[other] == before[other]
  {
  }

  lemma OneMoreHandled(
    name: string, sendable: (Webhook, string) -> bool, ids: set<string>, id: string,
    loaded: map<string, Webhook>, before: map<string, seq<Entry>>,
    hooks: map<string, Webhook>, logs: map<string, seq<Entry>>, hooks': map<string, Webhook>, logs': map<string, seq<Entry>>,
    start: int, end: int, later: int)
    requires HandledSoFar(name, sendable, ids, loaded, before, hooks, logs, start, end) && end <= later
    requires id in ids && id in hooks && Aside(hooks, hooks', id) && Aside(logs, logs', id)
    requires Handled(name, sendable, loaded[id], logs[id], hooks'[id], logs'[id], start, later)
    ensures HandledSoFar(name, sendable, ids - {id}, loaded, before, hooks', logs', start, later)
  {
    hide Handled;
    forall other | other in hooks' && other !in ids
      ensures Handled(name, sendable, loaded[other], before[other], hooks'[other], logs'[other], start, later)
    {
      assert hooks'[other] == hooks[other] && logs'[other] == logs[other];
      StillHandled(name, sendable, loaded[other], before[other], hooks[other], logs[other], start, end, later);
    }
  }

  lemma AllHandled(
    name: string, sendable: (Webhook, string) -> bool,
    loaded: map<string, Webhook>, before: map<string, seq<Entry>>,
    hooks: map<string, Webhook>, logs: map<string, seq<Entry>>, start: int, end: int)
    requires HandledSoFar(name, sendable, {}, loaded, before, hooks, logs, start, end)
    ensures forall id :: id in hooks ==> Handled(name, sendable, loaded[id], before[id], hooks[id], logs[id], start, end)
  {
    hide Handled;
  }
}
