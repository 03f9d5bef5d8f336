/**
 The suggestion coordinator: a module-level state of the last completion
 time and at most one request in flight. A call while a request is in flight
 shares it; a call within two seconds of the last completion gets the empty
 string; any other call starts a new request. The clock and the model are
 parameters: each event carries the time it happens at, and the completion
 event carries what the model answered.
 */
module Suggestions {
  import opened Basics
  import opened Types
  import opened Ai

  /** Milliseconds that must pass after a completion before a new request starts. */
  const MinRequestInterval := 2000

  /** A started request: its sequence number and the `generateContent` arguments. */
  datatype Flight = Flight(id: nat, request: Request)

  datatype Coordinator = Coordinator(lastRequestTime: int, pending: Option<Flight>, issued: nat)

  /** The module's state when it is first loaded. */
  const Initial := Coordinator(0, None, 0)

  /** What `getSuggestion` hands back: a value at once, or the promise of a flight. */
  datatype Reply = Immediate(text: string) | Await(flight: nat)

  function SuggestionRequest(text: string): Request {
    Request("Continue this sentence: " + text, Suggestion, Formal)
  }

  /** `getSuggestion(text)` called at time `now`. */
  function GetSuggestion(c: Coordinator, now: int, text: string): (r: (Coordinator, Reply))
    // a call never moves the clock: only a completion does
    ensures r.0.lastRequestTime == c.lastRequestTime
    // the caller gets a value at once exactly when nothing is in flight and the last completion is too recent
    ensures r.1.Immediate? <==> c.pending.None? && now - c.lastRequestTime < MinRequestInterval
    ensures r.1.Immediate? ==> r.1.text == "" && r.0 == c
    // otherwise it is handed the flight that is now in the slot
    ensures r.1.Await? ==> r.0.pending.Some? && r.0.pending.value.id == r.1.flight
    // a call joining a flight changes nothing
    ensures c.pending.Some? ==> r.0 == c
    // at most one new request starts, only when the slot was empty, and it asks to continue this text
    ensures c.issued <= r.0.issued <= c.issued + 1
    ensures r.0.issued != c.issued ==>
      c.pending.None? && r.0.pending.value == Flight(c.issued, SuggestionRequest(text))
  {
    if c.pending.Some? then (c, Await(c.pending.value.id))
    else if now - c.lastRequestTime < MinRequestInterval then (c, Immediate(""))
    else (c.(pending := Some(Flight(c.issued, SuggestionRequest(text))), issued := c.issued + 1), Await(c.issued))
  }

  /**
   The in-flight request settles at time `at` with the model's `answer`: the
   flight's value is what `generateContent` resolves to, the completion time
   is recorded and the slot is freed. With nothing in flight, nothing happens.
   */
  function Complete(c: Coordinator, at: int, answer: Outcome): (r: (Coordinator, Option<(nat, string)>))
    ensures c.pending.None? ==> r == (c, None)
    ensures c.pending.Some? ==>
      && r.0 == Coordinator(at, None, c.issued)
      && r.1 == Some((c.pending.value.id, Normalize(answer)))
    ensures r.1.Some? ==> r.1.value.1 != ""
  {
    match c.pending
    case None => (c, None)
    case Some(f) => (Coordinator(at, None, c.issued), Some((f.id, Normalize(answer))))
  }

  /** Something that happens to the coordinator. */
  datatype Event = Ask(now: int, text: string) | Settle(at: int, answer: Outcome)

  /** A request starting or finishing, as an observer of the model would see it. */
  datatype Activity =
    | Started(flight: nat, at: int, request: Request)
    | Finished(flight: nat, at: int, value: string)

  /** The state after some events, every reply handed out, and the request activity, in order. */
  datatype Trace = Trace(state: Coordinator, replies: seq<Reply>, log: seq<Activity>)

  function Step(t: Trace, e: Event): Trace {
    match e
    case Ask(now, text) =>
      var (c, reply) := GetSuggestion(t.state, now, text);
      var started := if c.issued > t.state.issued
        then [Started(t.state.issued, now, SuggestionRequest(text))]
        else [];
      Trace(c, t.replies + [reply], t.log + started)
    case Settle(at, answer) =>
      var (c, done) := Complete(t.state, at, answer);
      var finished := if done.Some? then [Finished(done.value.0, at, done.value.1)] else [];
      Trace(c, t.replies, t.log + finished)
  }

  function Run(events: seq<Event>): Trace
    decreases |events|
  {
    if |events| == 0 then Trace(Initial, [], [])
    else Step(Run(events[..|events| - 1]), events[|events| - 1])
  }

  /** When the last request finished, or 0 before any has. */
  function LastFinish(log: seq<Activity>): int {
    if |log| < 2 then 0
    else if |log| % 2 == 0 then log[|log| - 1].at
    else log[|log| - 2].at
  }

  /** Starts and finishes alternate, flight by flight, beginning with a start. */
  predicate Alternating(log: seq<Activity>) {
    forall k :: 0 <= k < |log| ==> log[k].flight == k / 2 && (log[k].Started? <==> k % 2 == 0)
  }

  /** Every start comes at least the minimum interval after the previous finish (or after time 0). */
  predicate Spaced(log: seq<Activity>) {
    && (|log| > 0 ==> log[0].at >= MinRequestInterval)
    && forall k :: 0 < k < |log| && k % 2 == 0 ==> log[k].at >= log[k - 1].at + MinRequestInterval
  }

  /** The coordinator's fields agree with the activity so far. */
  predicate StateMatchesLog(c: Coordinator, log: seq<Activity>) {
    && c.issued == (|log| + 1) / 2
    && (c.pending.Some? <==> |log| % 2 == 1)
    && (c.pending.Some? ==> c.pending.value.id == |log| / 2)
    && c.lastRequestTime == LastFinish(log)
  }

  /** Values handed out: finished flights are never empty, immediate replies always are, and awaited flights exist. */
  predicate RepliesSound(c: Coordinator, replies: seq<Reply>, log: seq<Activity>) {
    && (forall k :: 0 <= k < |log| && log[k].Finished? ==> log[k].value != "")
    && (forall k :: 0 <= k < |replies| && replies[k].Immediate? ==> replies[k].text == "")
    && (forall k :: 0 <= k < |replies| && replies[k].Await? ==> replies[k].flight < c.issued)
  }

  /** What holds of every reachable trace. */
  predicate Invariant(t: Trace) {
    Alternating(t.log) && Spaced(t.log) && StateMatchesLog(t.state, t.log) && RepliesSound(t.state, t.replies, t.log)
  }

  lemma StepInvariant(t: Trace, e: Event)
    requires Invariant(t)
    ensures Invariant(Step(t, e))
  {
    match e
    case Ask(now, text) =>
      if t.state.pending.None? && now - t.state.lastRequestTime >= MinRequestInterval {
        AskStarts(t, now, text);
      } else {
        AskWaits(t, now, text);
      }
    case Settle(at, answer) =>
      if t.state.pending.Some? {
        SettleFinishes(t, at, answer);
      } else {
        assert Step(t, e) == t;
      }
  }

  lemma AskStarts(t: Trace, now: int, text: string)
    requires Invariant(t)
    requires t.state.pending.None? && now - t.state.lastRequestTime >= MinRequestInterval
    ensures Invariant(Step(t, Ask(now, text)))
  {
    var t' := Step(t, Ask(now, text));
    var log, log' := t.log, t'.log;
    assert |log| % 2 == 0;
    assert log' == log + [Started(|log| / 2, now, SuggestionRequest(text))];
    assert forall k :: 0 <= k < |log| ==> log'[k] == log[k];
    assert LastFinish(log') == LastFinish(log);
    forall k | 0 < k < |log'| && k % 2 == 0 ensures log'[k].at >= log'[k - 1].at + MinRequestInterval {
      if k < |log| {
        assert log'[k - 1] == log[k - 1];
      }
    }
  }

  lemma AskWaits(t: Trace, now: int, text: string)
    requires Invariant(t)
    requires !(t.state.pending.None? && now - t.state.lastRequestTime >= MinRequestInterval)
    ensures Invariant(Step(t, Ask(now, text)))
  {
    var t' := Step(t, Ask(now, text));
    assert t'.log == t.log && t'.state == t.state;
    assert forall k :: 0 <= k < |t.replies| ==> t'.replies[k] == t.replies[k];
  }

  lemma SettleFinishes(t: Trace, at: int, answer: Outcome)
    requires Invariant(t)
    requires t.state.pending.Some?
    ensures Invariant(Step(t, Settle(at, answer)))
  {
    var value := Normalize(answer);
    assert Step(t, Settle(at, answer)) ==
      Trace(Coordinator(at, None, t.state.issued), t.replies, t.log + [Finished(|t.log| / 2, at, value)]);
    FinishKeepsInvariant(t, at, value);
  }

  /** Recording a non-empty finish for the pending flight keeps the invariant, whatever the value is. */
  lemma FinishKeepsInvariant(t: Trace, at: int, value: string)
    requires Invariant(t) && t.state.pending.Some? && value != ""
    ensures Invariant(Trace(Coordinator(at, None, t.state.issued), t.replies, t.log + [Finished(|t.log| / 2, at, value)]))
  {
    var log, log' := t.log, t.log + [Finished(|t.log| / 2, at, value)];
    assert forall k :: 0 <= k < |log| ==> log'[k] == log[k];
    assert LastFinish(log') == at;
    forall k | 0 < k < |log'| && k % 2 == 0 ensures log'[k].at >= log'[k - 1].at + MinRequestInterval {
      assert k < |log|;
      assert log'[k - 1] == log[k - 1];
    }
  }

  /** Every trace the coordinator can produce from its initial state keeps the invariant. */
  lemma {:induction false} RunInvariant(events: seq<Event>)
    ensures Invariant(Run(events))
    decreases |events|
  {
    if |events| > 0 {
      RunInvariant(events[..|events| - 1]);
      StepInvariant(Run(events[..|events| - 1]), events[|events| - 1]);
    }
  }

  /**
   Rate limit: in any run, a request starts only when at least two seconds
   have passed since the previous request finished, and never before time
   2000.
   */
  lemma RequestsSpaced(events: seq<Event>, k: nat)
    requires k < |Run(events).log| && Run(events).log[k].Started?
    ensures k == 0 ==> Run(events).log[k].at >= MinRequestInterval
    ensures k > 0 ==> Run(events).log[k - 1].Finished?
    ensures k > 0 ==> Run(events).log[k].at >= Run(events).log[k - 1].at + MinRequestInterval
  {
    RunInvariant(events);
    LogSpaced(Run(events).log, k);
  }

  lemma LogSpaced(log: seq<Activity>, k: nat)
    requires Alternating(log) && Spaced(log)
    requires k < |log| && log[k].Started?
    ensures k == 0 ==> log[k].at >= MinRequestInterval
    ensures k > 0 ==> log[k - 1].Finished? && log[k].at >= log[k - 1].at + MinRequestInterval
  {
    assert k % 2 == 0;
  }

  /**
   Single flight: a request starts only after the one before it has
   finished, so at most one is ever in flight, and calls made meanwhile are
   handed that flight instead of starting another.
   */
  lemma SingleFlight(events: seq<Event>, e: Event)
    requires Run(events).state.pending.Some? && e.Ask?
    ensures Run(events + [e]).log == Run(events).log
    ensures Run(events + [e]).replies == Run(events).replies + [Await(Run(events).state.pending.value.id)]
    ensures Run(events + [e]).state == Run(events).state
  {
    assert (events + [e])[..|events|] == events;
  }

  /**
   A call with nothing in flight, made at least two seconds after the last
   completion, starts exactly one request, for the sentence continuation
   with the suggestion type and the formal tone, and is handed that request.
   */
  lemma AskStartsRequest(events: seq<Event>, now: int, text: string)
    requires Run(events).state.pending.None?
    requires now - Run(events).state.lastRequestTime >= MinRequestInterval
    ensures Run(events + [Ask(now, text)]).log ==
      Run(events).log + [Started(Run(events).state.issued, now, Request("Continue this sentence: " + text, Suggestion, Formal))]
    ensures Run(events + [Ask(now, text)]).replies == Run(events).replies + [Await(Run(events).state.issued)]
  {
    assert (events + [Ask(now, text)])[..|events|] == events;
  }

  /** A call with nothing in flight but within two seconds of the last completion starts nothing and gets the empty string. */
  lemma AskRateLimited(events: seq<Event>, now: int, text: string)
    requires Run(events).state.pending.None?
    requires now - Run(events).state.lastRequestTime < MinRequestInterval
    ensures Run(events + [Ask(now, text)]).log == Run(events).log
    ensures Run(events + [Ask(now, text)]).replies == Run(events).replies + [Immediate("")]
  {
    assert (events + [Ask(now, text)])[..|events|] == events;
  }

  /** At most one request in flight: each start is followed by its own finish before any other start. */
  lemma OneInFlight(events: seq<Event>, k: nat)
    requires k + 1 < |Run(events).log| && Run(events).log[k].Started?
    ensures Run(events).log[k + 1].Finished? && Run(events).log[k + 1].flight == Run(events).log[k].flight
  {
    RunInvariant(events);
    StartThenFinish(Run(events).log, k);
  }

  lemma StartThenFinish(log: seq<Activity>, k: nat)
    requires Alternating(log) && k + 1 < |log| && log[k].Started?
    ensures log[k + 1].Finished? && log[k + 1].flight == log[k].flight
  {
    assert log[k].flight == k / 2 && log[k + 1].flight == (k + 1) / 2;
  }

  /** Every flight that finishes resolves to a non-empty string; the empty string only ever comes from the rate limit. */
  lemma ValuesNonEmpty(events: seq<Event>, k: nat)
    requires k < |Run(events).log| && Run(events).log[k].Finished?
    ensures Run(events).log[k].value != ""
  {
    RunInvariant(events);
  }
}
