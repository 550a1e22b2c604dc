/**
 * The streaming agent loop: open a streaming completion, report loading, forward every
 * chunk to the consumer, and retry with linear backoff when anything in an attempt raises.
 *
 * The provider client is foreign, so each attempt's behaviour is given as data (`Attempt`).
 * The callbacks are modelled by whether a given invocation raises.  Provider calls, callback
 * invocations and sleeps are recorded, in order, as a trace of `Event`s.
 */
module AgentLoops {
  import opened Wrappers

  /** One streamed chunk; the loop never looks inside it. */
  datatype Chunk = Chunk(payload: string)

  /** One conversation turn, such as {"role": "user", "content": "hi"}. */
  type Message = map<string, string>

  /** What `run` does that can be observed from outside. */
  datatype Event =
    | Open(model: string, messages: seq<Message>)  // one call to the provider's streaming `create`
    | Loading(active: bool)                         // one call to `on_loading(active)`
    | Item(chunk: Chunk)                            // one call to `on_item(chunk)`
    | Sleep(halfSeconds: nat)                       // `time.sleep(0.5 * halfSeconds)`

  /** How a stream ends once all its chunks have been yielded. */
  datatype StreamEnd = Exhausted | Broken

  /** What the provider does during one attempt: `create` raises, or it returns a stream. */
  datatype Attempt = OpenFails | Opens(chunks: seq<Chunk>, end: StreamEnd)

  /**
   * The provider library: not installed, installed but the client constructor raises, or a
   * working client whose behaviour at attempt k (counting from 1) is `attempts(k)`.
   */
  datatype Provider = NotInstalled | ClientFails | Client(attempts: nat -> Attempt)

  /** What raised inside an attempt. */
  datatype Failure = OpenFailed | LoadingStartRaised | ItemRaised | StreamBroken | LoadingStopRaised

  /** The exception `run` lets escape. */
  datatype Error = PackageMissing | ClientError | AttemptFailed(attempt: nat, cause: Failure)

  datatype Outcome = Returned | Raised(error: Error)

  /**
   * A callback, given the trace before the call and its argument, answers whether that
   * call raises.  A callback that only records (like `items.append`) never raises.
   */
  type ItemHook = (seq<Event>, Chunk) -> bool
  type LoadingHook = (seq<Event>, bool) -> bool

  /** One attempt, given its number and the trace so far: what raised, if anything, and the trace after. */
  type AttemptStep = (nat, seq<Event>) -> (Option<Failure>, seq<Event>)

  function Items(chunks: seq<Chunk>): seq<Event> {
    seq(|chunks|, i requires 0 <= i < |chunks| => Item(chunks[i]))
  }

  /** The sleeps of a trace, in half-seconds, in the order they happen. */
  function Delays(trace: seq<Event>): seq<nat> {
    if trace == [] then []
    else (if trace[0].Sleep? then [trace[0].halfSeconds] else []) + Delays(trace[1..])
  }

  /** The sequence 1, 2, ..., n. */
  function Ramp(n: nat): seq<nat> {
    seq(n, i requires 0 <= i < n => i + 1)
  }

  lemma {:induction false} DelaysAppend(a: seq<Event>, b: seq<Event>)
    ensures Delays(a + b) == Delays(a) + Delays(b)
    decreases |a|
  {
    if a == [] {
      assert a + b == b;
    } else {
      assert (a + b)[0] == a[0] && (a + b)[1..] == a[1..] + b;
      DelaysAppend(a[1..], b);
    }
  }

  lemma {:induction false} NoSleepNoDelays(s: seq<Event>)
    requires forall i :: 0 <= i < |s| ==> !s[i].Sleep?
    ensures Delays(s) == []
    decreases |s|
  {
    if s != [] {
      NoSleepNoDelays(s[1..]);
    }
  }

  lemma ItemsStep(trace: seq<Event>, chunks: seq<Chunk>, j: nat)
    requires j < |chunks|
    ensures trace + [Item(chunks[0])] + Items(chunks[1..][..j]) == trace + Items(chunks[..j + 1])
  {
    assert chunks[1..][..j] == chunks[1..j + 1];
  }

  // ---------------------------------------------------------------------------------------
  // The retry loop, for any attempt
  // ---------------------------------------------------------------------------------------

  /**
   * The `while attempt <= max_retries` loop of `run`, entered after `made` attempts: run
   * attempt `made + 1`; return when it succeeds, re-raise when it was the last one allowed,
   * otherwise sleep `made + 1` half-seconds and go round again.
   */
  function Retry(step: AttemptStep, maxRetries: int, made: nat, trace: seq<Event>): (Outcome, seq<Event>)
    decreases maxRetries - made + 1
  {
    if made > maxRetries then (Returned, trace)
    else
      var attempt := made + 1;
      var (failure, after) := step(attempt, trace);
      if failure.None? then (Returned, after)
      else if attempt > maxRetries then (Raised(AttemptFailed(attempt, failure.value)), after)
      else Retry(step, maxRetries, attempt, after + [Sleep(attempt)])
  }

  /**
   * The events one attempt adds after its provider call: nothing, or `on_loading(True)`
   * followed by forwarded chunks and possibly `on_loading(False)`.
   */
  ghost predicate IsAttemptTail(segment: seq<Event>) {
    segment == [] ||
    (segment[0] == Loading(true) &&
     forall i :: 1 <= i < |segment| ==> segment[i].Item? || segment[i] == Loading(false))
  }

  /** Every attempt makes exactly one provider call `open`. */
  ghost predicate OpensOnce(step: AttemptStep, open: Event) {
    forall k: nat, t: seq<Event> :: multiset(step(k, t).1)[open] == multiset(t)[open] + 1
  }

  /** Every attempt calls `on_loading(True)` at most once. */
  ghost predicate StartsAtMostOnce(step: AttemptStep) {
    forall k: nat, t: seq<Event> :: multiset(step(k, t).1)[Loading(true)] <= multiset(t)[Loading(true)] + 1
  }

  /** No attempt sleeps. */
  ghost predicate NeverSleeps(step: AttemptStep) {
    forall k: nat, t: seq<Event> :: Delays(step(k, t).1) == Delays(t)
  }

  /** An attempt in which nothing raised ends with `on_loading(False)`. */
  ghost predicate SucceedsAfterStop(step: AttemptStep) {
    forall k: nat, t: seq<Event> :: step(k, t).0.None? ==>
      |step(k, t).1| > 0 && step(k, t).1[|step(k, t).1| - 1] == Loading(false)
  }

  /** Every attempt keeps the trace before it, starts with the provider call `open` and does not sleep. */
  ghost predicate AppendsAfterOpen(step: AttemptStep, open: Event) {
    forall k: nat, t: seq<Event> ::
      |step(k, t).1| > |t| && step(k, t).1[..|t|] == t && step(k, t).1[|t|] == open &&
      forall j :: |t| < j < |step(k, t).1| ==> !step(k, t).1[j].Sleep?
  }

  /**
   * Every sleep in `trace` lasts as many half-seconds as there were provider calls before it,
   * and the next event, if any, is a provider call. This is the loop-invariant form of
   * `SleepsBetweenCalls`: a trace that ends in the sleep just appended still satisfies it.
   */
  ghost predicate SleepsPlaced(trace: seq<Event>, open: Event) {
    forall i :: 0 <= i < |trace| && trace[i].Sleep? ==>
      multiset(trace[..i])[open] == trace[i].halfSeconds && (i + 1 < |trace| ==> trace[i + 1] == open)
  }

  /**
   * Every sleep in `trace` lasts as many half-seconds as there were provider calls before it,
   * and a provider call comes right after it.
   */
  ghost predicate SleepsBetweenCalls(trace: seq<Event>, open: Event) {
    forall i :: 0 <= i < |trace| && trace[i].Sleep? ==>
      multiset(trace[..i])[open] == trace[i].halfSeconds && i + 1 < |trace| && trace[i + 1] == open
  }

  /** An attempt appended to a trace keeps its sleeps in place, and does not end with a sleep. */
  lemma ExtendPlaced(trace: seq<Event>, after: seq<Event>, open: Event)
    requires open.Open? && SleepsPlaced(trace, open)
    requires |after| > |trace| && after[..|trace|] == trace && after[|trace|] == open
    requires forall j :: |trace| < j < |after| ==> !after[j].Sleep?
    ensures SleepsPlaced(after, open) && !after[|after| - 1].Sleep?
  {
    forall i | 0 <= i < |after| && after[i].Sleep?
      ensures multiset(after[..i])[open] == after[i].halfSeconds && (i + 1 < |after| ==> after[i + 1] == open)
    {
      assert i < |trace|;
      assert after[i] == trace[i] && after[..i] == trace[..i];
      if i + 1 < |trace| {
        assert after[i + 1] == trace[i + 1];
      }
    }
  }

  /** A sleep of k half-seconds after the k-th provider call is in place. */
  lemma SleepPlaced(after: seq<Event>, open: Event, k: nat)
    requires open.Open? && SleepsPlaced(after, open) && multiset(after)[open] == k
    requires |after| > 0 && !after[|after| - 1].Sleep?
    ensures SleepsPlaced(after + [Sleep(k)], open)
  {
    var next := after + [Sleep(k)];
    forall i | 0 <= i < |next| && next[i].Sleep?
      ensures multiset(next[..i])[open] == next[i].halfSeconds && (i + 1 < |next| ==> next[i + 1] == open)
    {
      if i < |after| {
        assert next[i] == after[i] && next[..i] == after[..i];
        assert i + 1 < |after|;
        assert next[i + 1] == after[i + 1];
      } else {
        assert next[..i] == after;
      }
    }
  }

  /** Appending one attempt's events adds one provider call. */
  lemma SegmentOpens(trace: seq<Event>, open: Event, segment: seq<Event>)
    requires open.Open? && IsAttemptTail(segment)
    ensures multiset(trace + [open] + segment)[open] == multiset(trace)[open] + 1
  {
    assert open !in segment;
    assert multiset(trace + [open] + segment) == multiset(trace) + multiset([open]) + multiset(segment);
  }

  /** Appending one attempt's events adds at most one `on_loading(True)`. */
  lemma SegmentStarts(trace: seq<Event>, open: Event, segment: seq<Event>)
    requires open.Open? && IsAttemptTail(segment)
    ensures multiset(trace + [open] + segment)[Loading(true)] <= multiset(trace)[Loading(true)] + 1
  {
    assert multiset(trace + [open] + segment) == multiset(trace) + multiset([open]) + multiset(segment);
    if segment != [] {
      assert segment == [segment[0]] + segment[1..];
      assert Loading(true) !in segment[1..];
      assert multiset(segment) == multiset([segment[0]]) + multiset(segment[1..]);
    }
  }

  /** Appending one attempt's events adds no sleep. */
  lemma SegmentDelays(trace: seq<Event>, open: Event, segment: seq<Event>)
    requires open.Open? && IsAttemptTail(segment)
    ensures Delays(trace + [open] + segment) == Delays(trace)
  {
    NoSleepNoDelays(segment);
    DelaysAppend(trace + [open], segment);
    DelaysAppend(trace, [open]);
  }

  /** How many attempts the loop has made when it ends, having been entered after `made`. */
  function AttemptsMade(step: AttemptStep, maxRetries: int, made: nat, trace: seq<Event>): nat
    decreases maxRetries - made + 1
  {
    if made > maxRetries then made
    else
      var attempt := made + 1;
      var (failure, after) := step(attempt, trace);
      if failure.None? || attempt > maxRetries then attempt
      else AttemptsMade(step, maxRetries, attempt, after + [Sleep(attempt)])
  }

  /**
   * Entered after `made` attempts, the loop makes at most `maxRetries + 1` in all; the exception
   * it lets escape comes from the last attempt, number `maxRetries + 1`; a normal return after
   * some attempt comes right after `on_loading(False)`.
   */
  lemma {:induction false} RetryAttempts(step: AttemptStep, maxRetries: int, made: nat, trace: seq<Event>)
    requires SucceedsAfterStop(step)
    ensures var (outcome, t) := Retry(step, maxRetries, made, trace);
      made > maxRetries ==> outcome == Returned && t == trace && AttemptsMade(step, maxRetries, made, trace) == made
    ensures made <= maxRetries ==> made < AttemptsMade(step, maxRetries, made, trace) <= maxRetries + 1
    ensures var (outcome, t) := Retry(step, maxRetries, made, trace);
      outcome.Raised? ==>
        outcome.error.AttemptFailed? &&
        outcome.error.attempt == AttemptsMade(step, maxRetries, made, trace) == maxRetries + 1
    ensures var (outcome, t) := Retry(step, maxRetries, made, trace);
      outcome == Returned && made <= maxRetries ==> |t| > 0 && t[|t| - 1] == Loading(false)
    decreases maxRetries - made + 1
  {
    if made <= maxRetries {
      var attempt := made + 1;
      var (failure, after) := step(attempt, trace);
      if failure.Some? && attempt <= maxRetries {
        RetryAttempts(step, maxRetries, attempt, after + [Sleep(attempt)]);
      }
    }
  }

  /** Each attempt shows in the trace as one provider call. */
  lemma {:induction false} RetryOpens(step: AttemptStep, open: Event, maxRetries: int, made: nat, trace: seq<Event>)
    requires open.Open? && OpensOnce(step, open)
    requires multiset(trace)[open] == made
    ensures multiset(Retry(step, maxRetries, made, trace).1)[open] == AttemptsMade(step, maxRetries, made, trace)
    decreases maxRetries - made + 1
  {
    if made <= maxRetries {
      var attempt := made + 1;
      var (failure, after) := step(attempt, trace);
      if failure.Some? && attempt <= maxRetries {
        var next := after + [Sleep(attempt)];
        assert multiset(next) == multiset(after) + multiset([Sleep(attempt)]);
        RetryOpens(step, open, maxRetries, attempt, next);
      }
    }
  }

  /** The sleeps are 1, 2, ... half-seconds, one fewer than the attempts made. */
  lemma {:induction false} RetryDelays(step: AttemptStep, maxRetries: int, made: nat, trace: seq<Event>)
    requires NeverSleeps(step)
    requires Delays(trace) == Ramp(made)
    ensures made <= maxRetries ==>
      AttemptsMade(step, maxRetries, made, trace) > 0 &&
      Delays(Retry(step, maxRetries, made, trace).1) == Ramp(AttemptsMade(step, maxRetries, made, trace) - 1)
    decreases maxRetries - made + 1
  {
    if made <= maxRetries {
      var attempt := made + 1;
      var (failure, after) := step(attempt, trace);
      if failure.Some? && attempt <= maxRetries {
        var next := after + [Sleep(attempt)];
        DelaysAppend(after, [Sleep(attempt)]);
        assert [Sleep(attempt)][1..] == [];
        assert Ramp(made) + [attempt] == Ramp(attempt);
        RetryDelays(step, maxRetries, attempt, next);
      }
    }
  }

  /** `on_loading(True)` never outnumbers the provider calls. */
  lemma {:induction false} RetryStarts(step: AttemptStep, open: Event, maxRetries: int, made: nat, trace: seq<Event>)
    requires OpensOnce(step, open) && StartsAtMostOnce(step)
    requires multiset(trace)[Loading(true)] <= multiset(trace)[open]
    ensures var t := Retry(step, maxRetries, made, trace).1;
      multiset(t)[Loading(true)] <= multiset(t)[open]
    decreases maxRetries - made + 1
  {
    if made <= maxRetries {
      var attempt := made + 1;
      var (failure, after) := step(attempt, trace);
      if failure.Some? && attempt <= maxRetries {
        RetryStarts(step, open, maxRetries, attempt, after + [Sleep(attempt)]);
      }
    }
  }

  /** The bounds on attempts and `on_loading(True)` calls, for the loop entered afresh. */
  lemma RetryCounts(step: AttemptStep, open: Event, maxRetries: int)
    requires open.Open? && OpensOnce(step, open) && StartsAtMostOnce(step) && SucceedsAfterStop(step)
    ensures var (outcome, t) := Retry(step, maxRetries, 0, []);
      maxRetries < 0 ==> outcome == Returned && t == []
    ensures var (outcome, t) := Retry(step, maxRetries, 0, []);
      maxRetries >= 0 ==> 1 <= multiset(t)[open] <= maxRetries + 1
    ensures var (outcome, t) := Retry(step, maxRetries, 0, []);
      outcome.Raised? ==> outcome.error.AttemptFailed? && outcome.error.attempt == multiset(t)[open] == maxRetries + 1
    ensures var (outcome, t) := Retry(step, maxRetries, 0, []);
      multiset(t)[Loading(true)] <= multiset(t)[open]
    ensures var (outcome, t) := Retry(step, maxRetries, 0, []);
      outcome == Returned && maxRetries >= 0 ==> |t| > 0 && t[|t| - 1] == Loading(false)
  {
    RetryAttempts(step, maxRetries, 0, []);
    RetryOpens(step, open, maxRetries, 0, []);
    RetryStarts(step, open, maxRetries, 0, []);
  }

  /** The sleeps of the loop entered afresh: 1, 2, ... half-seconds, one fewer than the attempts. */
  lemma RetryBackoff(step: AttemptStep, open: Event, maxRetries: int)
    requires open.Open? && OpensOnce(step, open) && NeverSleeps(step)
    ensures var t := Retry(step, maxRetries, 0, []).1; var n := multiset(t)[open];
      Delays(t) == Ramp(if n == 0 then 0 else n - 1)
  {
    var t := Retry(step, maxRetries, 0, []).1;
    if maxRetries < 0 {
      assert t == [];
    } else {
      RetryOpens(step, open, maxRetries, 0, []);
      RetryDelays(step, maxRetries, 0, []);
      assert multiset(t)[open] == AttemptsMade(step, maxRetries, 0, []) > 0;
    }
  }

  /**
   * The loop's result is decided by its last attempt: it returns exactly when that attempt
   * succeeded, and otherwise re-raises that attempt's exception as attempt `maxRetries + 1`.
   */
  lemma {:induction false} RetryLast(step: AttemptStep, maxRetries: int, made: nat, trace: seq<Event>) returns (pre: seq<Event>)
    requires made <= maxRetries
    ensures var (outcome, t) := Retry(step, maxRetries, made, trace);
      var (failure, after) := step(AttemptsMade(step, maxRetries, made, trace), pre);
      after == t && (outcome == Returned <==> failure.None?) &&
      (outcome.Raised? ==> outcome.error == AttemptFailed(maxRetries + 1, failure.value))
    decreases maxRetries - made + 1
  {
    var attempt := made + 1;
    var (failure, after) := step(attempt, trace);
    if failure.Some? && attempt <= maxRetries {
      pre := RetryLast(step, maxRetries, attempt, after + [Sleep(attempt)]);
    } else {
      pre := trace;
    }
  }

  /**
   * When every attempt fails, on every trace it could start from, the loop makes `maxRetries + 1`
   * attempts and raises. Attempts that fail only on the traces the loop actually produces are
   * covered by `RetryLast` together with `RetryAttempts`.
   */
  lemma {:induction false} AllFailRaises(step: AttemptStep, maxRetries: int, made: nat, trace: seq<Event>)
    requires made <= maxRetries
    requires forall k: nat, t: seq<Event> :: step(k, t).0.Some?
    ensures Retry(step, maxRetries, made, trace).0.Raised?
    ensures AttemptsMade(step, maxRetries, made, trace) == maxRetries + 1
    decreases maxRetries - made + 1
  {
    var attempt := made + 1;
    var after := step(attempt, trace).1;
    if attempt <= maxRetries {
      AllFailRaises(step, maxRetries, attempt, after + [Sleep(attempt)]);
    }
  }

  /**
   * Whatever every attempt turns from `inv` into `done`, and from `inv` into `inv` once the
   * sleep after it is appended, holds of the trace the loop ends with.
   */
  lemma {:induction false} RetryKeeps(step: AttemptStep, inv: (nat, seq<Event>) -> bool, done: seq<Event> -> bool,
                                      maxRetries: int, made: nat, trace: seq<Event>)
    requires forall k: nat, t: seq<Event> :: 0 < k && inv(k - 1, t) ==>
      done(step(k, t).1) && inv(k, step(k, t).1 + [Sleep(k)])
    requires made <= maxRetries && inv(made, trace)
    ensures done(Retry(step, maxRetries, made, trace).1)
    decreases maxRetries - made + 1
  {
    var attempt := made + 1;
    var (failure, after) := step(attempt, trace);
    if failure.Some? && attempt <= maxRetries {
      RetryKeeps(step, inv, done, maxRetries, attempt, after + [Sleep(attempt)]);
    }
  }

  /** One attempt, and the sleep after it, keep the sleeps in place. */
  lemma AttemptPlaced(step: AttemptStep, open: Event, attempt: nat, trace: seq<Event>)
    requires open.Open? && OpensOnce(step, open) && AppendsAfterOpen(step, open)
    requires attempt > 0 && multiset(trace)[open] == attempt - 1 && SleepsPlaced(trace, open)
    ensures var after := step(attempt, trace).1;
      SleepsPlaced(after, open) && |after| > 0 && !after[|after| - 1].Sleep?
    ensures var next := step(attempt, trace).1 + [Sleep(attempt)];
      SleepsPlaced(next, open) && multiset(next)[open] == attempt
  {
    var after := step(attempt, trace).1;
    assert multiset(after)[open] == attempt;
    ExtendPlaced(trace, after, open);
    var next := after + [Sleep(attempt)];
    SleepPlaced(after, open, attempt);
    assert multiset(next) == multiset(after) + multiset([Sleep(attempt)]);
  }

  /** From a fresh start, the sleep after failed attempt k lasts k half-seconds and attempt k + 1 follows it. */
  lemma RetrySleepPlacement(step: AttemptStep, open: Event, maxRetries: int)
    requires open.Open? && OpensOnce(step, open) && AppendsAfterOpen(step, open)
    ensures SleepsBetweenCalls(Retry(step, maxRetries, 0, []).1, open)
  {
    var t := Retry(step, maxRetries, 0, []).1;
    if maxRetries >= 0 {
      var inv := (k: nat, t: seq<Event>) => multiset(t)[open] == k && SleepsPlaced(t, open);
      var done := (t: seq<Event>) => SleepsPlaced(t, open) && |t| > 0 && !t[|t| - 1].Sleep?;
      forall k: nat, t: seq<Event> | 0 < k && inv(k - 1, t)
        ensures done(step(k, t).1) && inv(k, step(k, t).1 + [Sleep(k)])
      {
        AttemptPlaced(step, open, k, t);
      }
      RetryKeeps(step, inv, done, maxRetries, 0, []);
      forall i | 0 <= i < |t| && t[i].Sleep?
        ensures i + 1 < |t|
      {
        assert i != |t| - 1;
      }
    }
  }

  /** The loop depends only on what each attempt does. */
  lemma {:induction false} RetryOfEqualSteps(step: AttemptStep, step': AttemptStep, maxRetries: int, made: nat, trace: seq<Event>)
    requires forall k: nat, t: seq<Event> :: step(k, t) == step'(k, t)
    ensures Retry(step, maxRetries, made, trace) == Retry(step', maxRetries, made, trace)
    decreases maxRetries - made + 1
  {
    if made <= maxRetries {
      var attempt := made + 1;
      var after := step(attempt, trace).1;
      if attempt <= maxRetries {
        RetryOfEqualSteps(step, step', maxRetries, attempt, after + [Sleep(attempt)]);
      }
    }
  }

  // ---------------------------------------------------------------------------------------
  // The agent loop object
  // ---------------------------------------------------------------------------------------

  class AgentLoop {
    const model: string
    const apiKey: Option<string>
    const instructions: string
    const onItem: ItemHook
    const onLoading: LoadingHook
    const maxRetries: int

    /** Missing callbacks become no-ops, which never raise. */
    constructor (model: string, apiKey: Option<string>, instructions: string := "",
                 onItem: Option<ItemHook> := None, onLoading: Option<LoadingHook> := None,
                 maxRetries: int := 3)
      ensures this.model == model && this.apiKey == apiKey && this.instructions == instructions
      ensures this.maxRetries == maxRetries
      ensures onItem.Some? ==> this.onItem == onItem.value
      ensures onLoading.Some? ==> this.onLoading == onLoading.value
      ensures onItem.None? ==> forall t, c :: !this.onItem(t, c)
      ensures onLoading.None? ==> forall t, b :: !this.onLoading(t, b)
    {
      this.model := model;
      this.apiKey := apiKey;
      this.instructions := instructions;
      var itemHook: ItemHook := (t, c) => false;
      if onItem.Some? {
        itemHook := onItem.value;
      }
      var loadingHook: LoadingHook := (t, b) => false;
      if onLoading.Some? {
        loadingHook := onLoading.value;
      }
      this.onItem := itemHook;
      this.onLoading := loadingHook;
      this.maxRetries := maxRetries;
    }

    /** Neither callback ever raises, as with the default no-op callbacks. */
    ghost predicate Quiet() {
      (forall t, c :: !onItem(t, c)) && (forall t, b :: !onLoading(t, b))
    }

    /** `for chunk in stream: self.on_item(chunk)`: (whether a call raised, the trace after). */
    function Deliver(trace: seq<Event>, chunks: seq<Chunk>): (bool, seq<Event>)
      decreases |chunks|
    {
      if chunks == [] then (false, trace)
      else if onItem(trace, chunks[0]) then (true, trace + [Item(chunks[0])])
      else Deliver(trace + [Item(chunks[0])], chunks[1..])
    }

    /** The `try` block of one attempt: what raised, if anything, and the trace after. */
    function AttemptSpec(attempt: Attempt, messages: seq<Message>, trace: seq<Event>): (Option<Failure>, seq<Event>) {
      var requested := trace + [Open(model, messages)];
      match attempt
      case OpenFails => (Some(OpenFailed), requested)
      case Opens(chunks, end) =>
        var started := requested + [Loading(true)];
        if onLoading(requested, true) then (Some(LoadingStartRaised), started)
        else
          var (raised, delivered) := Deliver(started, chunks);
          if raised then (Some(ItemRaised), delivered)
          else if end == Broken then (Some(StreamBroken), delivered)
          else
            var stopped := delivered + [Loading(false)];
            if onLoading(delivered, false) then (Some(LoadingStopRaised), stopped) else (None, stopped)
    }

    /** Attempt k against a client that behaves as `attempts`. */
    function StepOf(attempts: nat -> Attempt, messages: seq<Message>): AttemptStep {
      (k: nat, t: seq<Event>) => AttemptSpec(attempts(k), messages, t)
    }

    /** What `run(messages)` does: its outcome and its trace. */
    function RunSpec(provider: Provider, messages: seq<Message>): (Outcome, seq<Event>) {
      match provider
      case NotInstalled => (Raised(PackageMissing), [])
      case ClientFails => (Raised(ClientError), [])
      case Client(attempts) => Retry(StepOf(attempts, messages), maxRetries, 0, [])
    }

    /** `run`: try up to `maxRetries + 1` attempts, sleeping `0.5 * k` seconds after failed attempt k. */
    method Run(provider: Provider, messages: seq<Message>) returns (outcome: Outcome, trace: seq<Event>)
      ensures (outcome, trace) == RunSpec(provider, messages)
    {
      trace := [];
      if provider.NotInstalled? {
        return Raised(PackageMissing), trace;
      }
      if provider.ClientFails? {
        return Raised(ClientError), trace;
      }
      var attempts := provider.attempts;
      var attempt: nat := 0;
      while attempt <= maxRetries
        invariant Retry(StepOf(attempts, messages), maxRetries, attempt, trace) == RunSpec(provider, messages)
        decreases maxRetries - attempt
      {
        attempt := attempt + 1;
        ghost var before := trace;
        var failure: Option<Failure> := None;
        trace := trace + [Open(model, messages)];
        match attempts(attempt) {
          case OpenFails =>
            failure := Some(OpenFailed);
          case Opens(chunks, end) =>
            var raised := onLoading(trace, true);
            trace := trace + [Loading(true)];
            if raised {
              failure := Some(LoadingStartRaised);
            } else {
              ghost var started := trace;
              var i := 0;
              while i < |chunks| && failure.None?
                invariant 0 <= i <= |chunks|
                invariant failure.None? ==> Deliver(started, chunks) == Deliver(trace, chunks[i..])
                invariant failure.Some? ==> failure == Some(ItemRaised) && Deliver(started, chunks) == (true, trace)
              {
                assert chunks[i..][0] == chunks[i] && chunks[i..][1..] == chunks[i + 1..];
                raised := onItem(trace, chunks[i]);
                trace := trace + [Item(chunks[i])];
                if raised {
                  failure := Some(ItemRaised);
                }
                i := i + 1;
              }
              if failure.None? {
                if end == Broken {
                  failure := Some(StreamBroken);
                } else {
                  raised := onLoading(trace, false);
                  trace := trace + [Loading(false)];
                  if raised {
                    failure := Some(LoadingStopRaised);
                  }
                }
              }
            }
        }
        assert StepOf(attempts, messages)(attempt, before) == (failure, trace);
        if failure.None? {
          return Returned, trace;
        }
        if attempt > maxRetries {
          return Raised(AttemptFailed(attempt, failure.value)), trace;
        }
        trace := trace + [Sleep(attempt)];
      }
      return Returned, trace;
    }

    // -------------------------------------------------------------------------------------
    // Properties of one attempt
    // -------------------------------------------------------------------------------------

    /**
     * Chunks are forwarded in arrival order, each exactly once, and forwarding stops right after
     * the first `on_item` call that raises.
     */
    lemma {:induction false} DeliverStopsAtFirstRaise(trace: seq<Event>, chunks: seq<Chunk>)
      ensures var after := Deliver(trace, chunks).1;
        |trace| <= |after| <= |trace| + |chunks| &&
        after == trace + Items(chunks[..|after| - |trace|])
      ensures !Deliver(trace, chunks).0 ==> |Deliver(trace, chunks).1| == |trace| + |chunks|
      ensures var (raised, after) := Deliver(trace, chunks); var n := |after| - |trace|;
        raised ==> n > 0 && onItem(trace + Items(chunks[..n - 1]), chunks[n - 1])
      ensures var (raised, after) := Deliver(trace, chunks); var n := |after| - |trace|;
        forall j :: 0 <= j < n && (j < n - 1 || !raised) ==> !onItem(trace + Items(chunks[..j]), chunks[j])
      decreases |chunks|
    {
      assert chunks[..0] == [] && trace + Items([]) == trace;
      if chunks != [] && !onItem(trace, chunks[0]) {
        var t1 := trace + [Item(chunks[0])];
        DeliverStopsAtFirstRaise(t1, chunks[1..]);
        var n := |Deliver(t1, chunks[1..]).1| - |t1|;
        ItemsStep(trace, chunks, n);
        forall j | 0 <= j <= n
          ensures t1 + Items(chunks[1..][..j]) == trace + Items(chunks[..j + 1])
        {
          ItemsStep(trace, chunks, j);
        }
      } else if chunks != [] {
        assert Items(chunks[..1]) == [Item(chunks[0])];
      }
    }

    /**
     * The events of one attempt: the provider call, then (once the stream is open) `on_loading(True)`,
     * the forwarded chunks in order, and `on_loading(False)` only when the stream was drained.
     */
    lemma AttemptEvents(a: Attempt, messages: seq<Message>, trace: seq<Event>)
      ensures var (failure, after) := AttemptSpec(a, messages, trace);
        |after| > |trace| && after[..|trace| + 1] == trace + [Open(model, messages)]
      ensures var (failure, after) := AttemptSpec(a, messages, trace);
        failure == Some(OpenFailed) <==> a.OpenFails?
      ensures var (failure, after) := AttemptSpec(a, messages, trace);
        a.OpenFails? ==> after == trace + [Open(model, messages)]
      ensures var (failure, after) := AttemptSpec(a, messages, trace);
        a.Opens? ==>
          |after| > |trace| + 1 && after[|trace| + 1] == Loading(true) &&
          forall i :: |trace| + 1 < i < |after| ==> after[i] == Loading(false) || after[i].Item?
      ensures var (failure, after) := AttemptSpec(a, messages, trace);
        failure.None? || failure == Some(LoadingStopRaised) ==>
          a.Opens? && after == trace + [Open(model, messages), Loading(true)] + Items(a.chunks) + [Loading(false)]
      ensures var (failure, after) := AttemptSpec(a, messages, trace);
        failure.None? ==> a.end == Exhausted
      ensures var (failure, after) := AttemptSpec(a, messages, trace);
        failure.Some? && failure != Some(LoadingStopRaised) ==> Loading(false) !in after[|trace|..]
    {
      var requested := trace + [Open(model, messages)];
      if a.Opens? {
        var started := requested + [Loading(true)];
        DeliverStopsAtFirstRaise(started, a.chunks);
        var delivered := Deliver(started, a.chunks).1;
        assert delivered[|trace|..] == [Open(model, messages), Loading(true)] + delivered[|started|..];
      }
    }

    /**
     * One attempt makes one provider call, calls `on_loading(True)` at most once, never sleeps,
     * and ends with `on_loading(False)` when nothing raised.
     */
    lemma AttemptBookkeeping(a: Attempt, messages: seq<Message>, trace: seq<Event>)
      ensures var after := AttemptSpec(a, messages, trace).1;
        multiset(after)[Open(model, messages)] == multiset(trace)[Open(model, messages)] + 1
      ensures var after := AttemptSpec(a, messages, trace).1;
        multiset(after)[Loading(true)] <= multiset(trace)[Loading(true)] + 1
      ensures Delays(AttemptSpec(a, messages, trace).1) == Delays(trace)
      ensures var (failure, after) := AttemptSpec(a, messages, trace);
        failure.None? ==> |after| > 0 && after[|after| - 1] == Loading(false)
    {
      AttemptEvents(a, messages, trace);
      var after := AttemptSpec(a, messages, trace).1;
      var segment := after[|trace| + 1..];
      assert after == trace + [Open(model, messages)] + segment;
      assert IsAttemptTail(segment) by {
        if segment != [] {
          assert forall i :: 1 <= i < |segment| ==> segment[i] == after[|trace| + 1 + i];
        }
      }
      SegmentOpens(trace, Open(model, messages), segment);
      SegmentStarts(trace, Open(model, messages), segment);
      SegmentDelays(trace, Open(model, messages), segment);
    }

    /** One attempt keeps the trace before it, starts with its provider call and never sleeps. */
    lemma AttemptAppends(a: Attempt, messages: seq<Message>, trace: seq<Event>)
      ensures var after := AttemptSpec(a, messages, trace).1;
        |after| > |trace| && after[..|trace|] == trace && after[|trace|] == Open(model, messages) &&
        forall j :: |trace| < j < |after| ==> !after[j].Sleep?
    {
      AttemptEvents(a, messages, trace);
      var after := AttemptSpec(a, messages, trace).1;
      assert after[..|trace| + 1][..|trace|] == after[..|trace|];
    }

    /** The attempts of `run` meet what the generic loop lemmas ask of a step. */
    lemma StepAccounts(attempts: nat -> Attempt, messages: seq<Message>)
      ensures OpensOnce(StepOf(attempts, messages), Open(model, messages))
      ensures StartsAtMostOnce(StepOf(attempts, messages))
      ensures NeverSleeps(StepOf(attempts, messages))
      ensures SucceedsAfterStop(StepOf(attempts, messages))
    {
      forall k: nat, t: seq<Event> {
        AttemptBookkeeping(attempts(k), messages, t);
      }
    }

    /** Every attempt of `run` keeps the trace before it, starts with its provider call and never sleeps. */
    lemma StepAppends(attempts: nat -> Attempt, messages: seq<Message>)
      ensures AppendsAfterOpen(StepOf(attempts, messages), Open(model, messages))
    {
      forall k: nat, t: seq<Event> {
        AttemptAppends(attempts(k), messages, t);
      }
    }

    /** With callbacks that never raise, an attempt fails exactly when the provider fails. */
    lemma QuietAttempt(a: Attempt, messages: seq<Message>, trace: seq<Event>)
      requires Quiet()
      ensures AttemptSpec(a, messages, trace) ==
        match a
        case OpenFails => (Some(OpenFailed), trace + [Open(model, messages)])
        case Opens(chunks, Broken) =>
          (Some(StreamBroken), trace + [Open(model, messages), Loading(true)] + Items(chunks))
        case Opens(chunks, Exhausted) =>
          (None, trace + [Open(model, messages), Loading(true)] + Items(chunks) + [Loading(false)])
    {
      if a.Opens? {
        var started := trace + [Open(model, messages)] + [Loading(true)];
        assert started == trace + [Open(model, messages), Loading(true)];
        DeliverStopsAtFirstRaise(started, a.chunks);
        assert a.chunks[..|a.chunks|] == a.chunks;
      }
    }

    // -------------------------------------------------------------------------------------
    // Properties of `run`
    // -------------------------------------------------------------------------------------

    /**
     * `run` opens at most `maxRetries + 1` streams, none when `maxRetries < 0`; the exception it
     * lets escape comes from attempt `maxRetries + 1`; and `on_loading(True)` happens at most
     * once per opened attempt.
     */
    lemma AttemptCount(provider: Provider, messages: seq<Message>)
      requires provider.Client?
      ensures var (outcome, t) := RunSpec(provider, messages);
        maxRetries < 0 ==> outcome == Returned && t == []
      ensures var (outcome, t) := RunSpec(provider, messages);
        maxRetries >= 0 ==> 1 <= multiset(t)[Open(model, messages)] <= maxRetries + 1
      ensures var (outcome, t) := RunSpec(provider, messages);
        outcome.Raised? ==>
          outcome.error.AttemptFailed? &&
          outcome.error.attempt == multiset(t)[Open(model, messages)] == maxRetries + 1
      ensures var (outcome, t) := RunSpec(provider, messages);
        multiset(t)[Loading(true)] <= multiset(t)[Open(model, messages)]
    {
      var step, open := StepOf(provider.attempts, messages), Open(model, messages);
      var (outcome, t) := Retry(step, maxRetries, 0, []);
      assert (maxRetries < 0 ==> outcome == Returned && t == []) &&
        (maxRetries >= 0 ==> 1 <= multiset(t)[open] <= maxRetries + 1) &&
        (outcome.Raised? ==> outcome.error.AttemptFailed? && outcome.error.attempt == multiset(t)[open] == maxRetries + 1) &&
        multiset(t)[Loading(true)] <= multiset(t)[open]
      by {
        StepAccounts(provider.attempts, messages);
        RetryCounts(step, open, maxRetries);
      }
    }

    /** After failed attempt k the loop sleeps k half-seconds, so the delays are 1, 2, 3, ... */
    lemma LinearBackoff(provider: Provider, messages: seq<Message>)
      ensures var (outcome, t) := RunSpec(provider, messages);
        var n := multiset(t)[Open(model, messages)];
        |Delays(t)| == (if n == 0 then 0 else n - 1)
      ensures var (outcome, t) := RunSpec(provider, messages);
        forall i :: 0 <= i < |Delays(t)| ==> Delays(t)[i] == i + 1
    {
      if provider.Client? {
        var step, open := StepOf(provider.attempts, messages), Open(model, messages);
        var t := Retry(step, maxRetries, 0, []).1;
        var n := multiset(t)[open];
        assert Delays(t) == Ramp(if n == 0 then 0 else n - 1) by {
          StepAccounts(provider.attempts, messages);
          RetryBackoff(step, open, maxRetries);
        }
      }
    }

    /**
     * Each sleep of `run` lasts as many half-seconds as there were provider calls before it, so
     * the sleep after failed attempt k lasts k half-seconds, and the provider call of attempt
     * k + 1 comes right after it.
     */
    lemma SleepsBetweenAttempts(provider: Provider, messages: seq<Message>)
      ensures SleepsBetweenCalls(RunSpec(provider, messages).1, Open(model, messages))
    {
      if provider.Client? {
        var step, open := StepOf(provider.attempts, messages), Open(model, messages);
        assert OpensOnce(step, open) by { StepAccounts(provider.attempts, messages); }
        assert AppendsAfterOpen(step, open) by { StepAppends(provider.attempts, messages); }
        RetrySleepPlacement(step, open, maxRetries);
      }
    }

    /** A run that returns normally after opening a stream ends with `on_loading(False)`. */
    lemma ReturnEndsWithLoadingStop(provider: Provider, messages: seq<Message>)
      requires provider.Client? && maxRetries >= 0
      ensures var (outcome, t) := RunSpec(provider, messages);
        outcome == Returned ==> |t| > 0 && t[|t| - 1] == Loading(false)
    {
      var step, open := StepOf(provider.attempts, messages), Open(model, messages);
      var (outcome, t) := Retry(step, maxRetries, 0, []);
      assert outcome == Returned ==> |t| > 0 && t[|t| - 1] == Loading(false) by {
        StepAccounts(provider.attempts, messages);
        RetryCounts(step, open, maxRetries);
      }
    }

    /**
     * With `maxRetries == 0` there is exactly one attempt and no sleep: `run` returns when that
     * attempt succeeds and otherwise re-raises its exception.
     */
    lemma NoRetriesMeansOneAttempt(provider: Provider, messages: seq<Message>)
      requires provider.Client? && maxRetries == 0
      ensures var (outcome, t) := RunSpec(provider, messages);
        multiset(t)[Open(model, messages)] == 1 && Delays(t) == [] &&
        (outcome.Raised? ==> outcome.error.attempt == 1)
      ensures var (outcome, t) := RunSpec(provider, messages);
        var (failure, after) := AttemptSpec(provider.attempts(1), messages, []);
        t == after && (outcome == Returned <==> failure.None?) &&
        (outcome.Raised? ==> outcome.error == AttemptFailed(1, failure.value))
    {
      var step, open := StepOf(provider.attempts, messages), Open(model, messages);
      var (outcome, t) := Retry(step, maxRetries, 0, []);
      assert multiset(t)[open] == 1 && Delays(t) == Ramp(0) && (outcome.Raised? ==> outcome.error.attempt == 1) by {
        StepAccounts(provider.attempts, messages);
        RetryCounts(step, open, maxRetries);
        RetryBackoff(step, open, maxRetries);
      }
    }

    /**
     * `run`'s result is decided by its last attempt, the one numbered by the count of provider
     * calls: it returns exactly when that attempt succeeded, and otherwise re-raises that
     * attempt's exception, from attempt `maxRetries + 1`.
     */
    lemma LastAttemptDecides(provider: Provider, messages: seq<Message>) returns (pre: seq<Event>)
      requires provider.Client? && maxRetries >= 0
      ensures var (outcome, t) := RunSpec(provider, messages);
        var (failure, after) := AttemptSpec(provider.attempts(multiset(t)[Open(model, messages)]), messages, pre);
        after == t && (outcome == Returned <==> failure.None?) &&
        (outcome.Raised? ==> outcome.error == AttemptFailed(maxRetries + 1, failure.value))
    {
      var step, open := StepOf(provider.attempts, messages), Open(model, messages);
      var t := Retry(step, maxRetries, 0, []).1;
      assert multiset(t)[open] == AttemptsMade(step, maxRetries, 0, []) by {
        StepAccounts(provider.attempts, messages);
        RetryOpens(step, open, maxRetries, 0, []);
      }
      pre := RetryLast(step, maxRetries, 0, []);
    }

    /**
     * When every attempt fails, on every trace it could start from, `run` makes `maxRetries + 1`
     * provider calls and then raises. Attempts that fail only on the traces this run produces,
     * such as callbacks that raise only at certain points, are covered by `LastAttemptDecides`
     * together with `AttemptCount`.
     */
    lemma AllAttemptsFailRaises(attempts: nat -> Attempt, messages: seq<Message>)
      requires maxRetries >= 0
      requires forall k: nat, t: seq<Event> :: AttemptSpec(attempts(k), messages, t).0.Some?
      ensures var (outcome, t) := RunSpec(Client(attempts), messages);
        outcome.Raised? && outcome.error.AttemptFailed? && outcome.error.attempt == maxRetries + 1 &&
        multiset(t)[Open(model, messages)] == maxRetries + 1
    {
      var step, open := StepOf(attempts, messages), Open(model, messages);
      var (outcome, t) := Retry(step, maxRetries, 0, []);
      assert outcome.Raised? && AttemptsMade(step, maxRetries, 0, []) == maxRetries + 1 by {
        AllFailRaises(step, maxRetries, 0, []);
      }
      assert multiset(t)[open] == AttemptsMade(step, maxRetries, 0, []) by {
        StepAccounts(attempts, messages);
        RetryOpens(step, open, maxRetries, 0, []);
      }
      assert outcome.error.AttemptFailed? && outcome.error.attempt == maxRetries + 1 by {
        StepAccounts(attempts, messages);
        RetryCounts(step, open, maxRetries);
      }
    }

    /** With no retries and a provider that always fails to open, `run` raises after one provider call. */
    lemma NoRetriesFailingProviderRaises(attempts: nat -> Attempt, messages: seq<Message>)
      requires maxRetries == 0
      requires forall k: nat :: attempts(k) == OpenFails
      ensures RunSpec(Client(attempts), messages) == (Raised(AttemptFailed(1, OpenFailed)), [Open(model, messages)])
    {
      assert attempts(1) == OpenFails;
      assert AttemptSpec(attempts(1), messages, []) == (Some(OpenFailed), [] + [Open(model, messages)]);
      assert [] + [Open(model, messages)] == [Open(model, messages)];
    }

    /** The first attempt that drains its stream without a raise ends the run; no further attempt follows. */
    lemma FirstSuccessEndsRun(attempts: nat -> Attempt, messages: seq<Message>, made: nat, trace: seq<Event>)
      requires made <= maxRetries
      requires AttemptSpec(attempts(made + 1), messages, trace).0.None?
      ensures attempts(made + 1).Opens? && attempts(made + 1).end == Exhausted
      ensures Retry(StepOf(attempts, messages), maxRetries, made, trace) ==
        (Returned, trace + [Open(model, messages), Loading(true)] + Items(attempts(made + 1).chunks) + [Loading(false)])
    {
      AttemptEvents(attempts(made + 1), messages, trace);
    }

    /** A missing provider library or a failing client constructor fails the run before any event. */
    lemma UnavailableProviderFailsFirst(provider: Provider, messages: seq<Message>)
      requires !provider.Client?
      ensures RunSpec(provider, messages).1 == []
      ensures RunSpec(provider, messages).0 ==
        Raised(if provider.NotInstalled? then PackageMissing else ClientError)
    {
    }

    /** Attempts 1 and 2 fail to open, attempt 3 streams: the run recovers after two sleeps. */
    lemma RecoversOnThirdAttempt(attempts: nat -> Attempt, messages: seq<Message>, chunks: seq<Chunk>)
      requires Quiet() && maxRetries == 3
      requires attempts(1) == OpenFails && attempts(2) == OpenFails
      requires attempts(3) == Opens(chunks, Exhausted)
      ensures RunSpec(Client(attempts), messages) ==
        (Returned, [Open(model, messages), Sleep(1), Open(model, messages), Sleep(2),
                    Open(model, messages), Loading(true)] + Items(chunks) + [Loading(false)])
    {
      var step := StepOf(attempts, messages);
      var t1 := [Open(model, messages), Sleep(1)];
      var t2 := t1 + [Open(model, messages), Sleep(2)];
      QuietAttempt(attempts(1), messages, []);
      assert step(1, []).1 + [Sleep(1)] == t1;
      QuietAttempt(attempts(2), messages, t1);
      assert step(2, t1).1 + [Sleep(2)] == t2;
      QuietAttempt(attempts(3), messages, t2);
      FirstSuccessEndsRun(attempts, messages, 2, t2);
      assert Retry(step, maxRetries, 1, t1) == Retry(step, maxRetries, 2, t2);
      assert Retry(step, maxRetries, 0, []) == Retry(step, maxRetries, 1, t1);
      assert t2 + [Open(model, messages), Loading(true)] ==
        [Open(model, messages), Sleep(1), Open(model, messages), Sleep(2), Open(model, messages), Loading(true)];
    }

    /** A client that streams one chunk on the first attempt, to callbacks that only record: the chunk is forwarded once. */
    lemma SingleChunkRun(attempts: nat -> Attempt, messages: seq<Message>, c: Chunk)
      requires Quiet() && maxRetries >= 0
      requires attempts(1) == Opens([c], Exhausted)
      ensures RunSpec(Client(attempts), messages) ==
        (Returned, [Open(model, messages), Loading(true), Item(c), Loading(false)])
    {
      QuietAttempt(attempts(1), messages, []);
      FirstSuccessEndsRun(attempts, messages, 0, []);
      assert Items([c]) == [Item(c)];
      assert [] + [Open(model, messages), Loading(true)] + [Item(c)] + [Loading(false)] ==
        [Open(model, messages), Loading(true), Item(c), Loading(false)];
    }

    /** With no callbacks, or any that never raise, `run` does exactly the same thing. */
    lemma QuietLoopsAgree(other: AgentLoop, provider: Provider, messages: seq<Message>)
      requires Quiet() && other.Quiet()
      requires other.model == model && other.maxRetries == maxRetries
      ensures other.RunSpec(provider, messages) == RunSpec(provider, messages)
    {
      if provider.Client? {
        var attempts := provider.attempts;
        forall k: nat, t: seq<Event>
          ensures StepOf(attempts, messages)(k, t) == other.StepOf(attempts, messages)(k, t)
        {
          QuietAttempt(attempts(k), messages, t);
          other.QuietAttempt(attempts(k), messages, t);
        }
        RetryOfEqualSteps(StepOf(attempts, messages), other.StepOf(attempts, messages), maxRetries, 0, []);
      }
    }
  }
}
