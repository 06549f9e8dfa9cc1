/** The attempt loop of a gateway request: what is retried, after which delay, and when it stops.
    Times are nanoseconds on one monotonic clock. */
module TransportRetry {
  import opened Wrappers

  const SECOND := 1_000_000_000
  const U32_MAX := 0xFFFF_FFFF
  const DURATION_MAX := 0xFFFF_FFFF_FFFF_FFFF * SECOND + 999_999_999

  type Duration = n: nat | n <= DURATION_MAX
  type Attempts = n: nat | n <= U32_MAX

  datatype Policy = Policy(maxAttempts: Attempts, initialBackoff: Duration, maxBackoff: Duration)

  datatype Error = ConnectError | BuildError | QueueRejected | SendError | StatusError(status: nat) | BodyError | Timeout

  /** An awaited operation: how long it would take, and what it would give. */
  datatype Wait<R> = Wait(took: nat, result: R)

  /** `timeout_at`: when the wait is over, and the result if it came in time. */
  function Await<R>(now: nat, w: Wait<R>, limit: nat): (nat, Option<R>) {
    if w.took == 0 || now + w.took <= limit then (now + w.took, Some(w.result))
    else (if now < limit then limit else now, None)
  }

  /** What sending gives: a response head, a rejected and recovered request, or an error after queueing. */
  datatype ReplyHead = Answered(status: nat, retryAfter: Option<Duration>) | Rejected | Broken

  /** How a body ends; its `type` field is there when the body is JSON that has one. */
  datatype Body = Body(complete: bool, bodyType: Option<string>)

  /** What the network does in one attempt, left to itself. */
  datatype Exchange = Exchange(connect: Wait<bool>, built: bool, head: Wait<ReplyHead>, body: Wait<Body>)

  /** The client's settings; a streaming call is done at the response head. */
  datatype Client = Client(policy: Policy, connectTimeout: Duration, streaming: bool)

  datatype AttemptResult = Done | Retry(error: Error, retryAfter: Option<Duration>, staleKey: bool) | Terminal(error: Error)

  predicate StaleVirtualKey(status: nat, bodyType: Option<string>) {
    || (status == 401 && bodyType == Some("access_not_found"))
    || (status == 403 && bodyType == Some("access_blocked"))
  }

  function ClassifyStatus(status: nat, bodyType: Option<string>, retryAfter: Option<Duration>, staleKeyAvailable: bool):
    AttemptResult
  {
    if status == 429 || 500 <= status < 600 then Retry(StatusError(status), retryAfter, false)
    else if staleKeyAvailable && StaleVirtualKey(status, bodyType) then Retry(StatusError(status), None, true)
    else Terminal(StatusError(status))
  }

  function Connect(client: Client, ex: Exchange, now: nat, deadline: nat): (nat, Option<bool>) {
    Await(now, ex.connect, Min(deadline, now + client.connectTimeout))
  }

  /** `run_attempt`: its result, and when it returned. */
  function RunAttempt(client: Client, ex: Exchange, now: nat, deadline: nat, staleKeyAvailable: bool): (AttemptResult, nat) {
    var (connected, connection) := Connect(client, ex, now, deadline);
    if connection != Some(true) then (Retry(ConnectError, None, false), connected)
    else if !ex.built then (Terminal(BuildError), connected)
    else
      var (answered, head) := Await<ReplyHead>(connected, ex.head, deadline);
      match head
      case None => (Terminal(Timeout), answered)
      case Some(Rejected) => (Retry(QueueRejected, None, false), answered)
      case Some(Broken) => (Terminal(SendError), answered)
      case Some(Answered(status, retryAfter)) => ReadReply(client, ex, answered, deadline, status, retryAfter, staleKeyAvailable)
  }

  /** From the response head on: a status counts only with its whole body. */
  function ReadReply(client: Client, ex: Exchange, now: nat, deadline: nat, status: nat, retryAfter: Option<Duration>,
                     staleKeyAvailable: bool): (AttemptResult, nat)
  {
    var success := 200 <= status < 300;
    if success && client.streaming then (Done, now)
    else
      var (ended, body) := Await<Body>(now, ex.body, deadline);
      match body
      case None => (Terminal(Timeout), ended)
      case Some(b) =>
        if !success then (ClassifyStatus(status, b.bodyType, retryAfter, staleKeyAvailable), ended)
        else if b.complete then (Done, ended)
        else (Terminal(BodyError), ended)
  }

  /** No attempt that starts in time outlasts the deadline, whatever the network does. */
  lemma AttemptEndsInTime(client: Client, ex: Exchange, now: nat, deadline: nat, staleKeyAvailable: bool)
    requires now <= deadline
    ensures now <= RunAttempt(client, ex, now, deadline, staleKeyAvailable).1 <= deadline
  {
  }

  /** The request may have reached the gateway whole: it was queued and not recovered. */
  predicate MayBeBilled(client: Client, ex: Exchange, now: nat, deadline: nat) {
    var (connected, connection) := Connect(client, ex, now, deadline);
    connection == Some(true) && ex.built && Await(connected, ex.head, deadline).1 != Some(Rejected)
  }

  /** A request that may have been billed is retried only on a complete reply with a retryable status. */
  lemma BilledRetry(client: Client, ex: Exchange, now: nat, deadline: nat, staleKeyAvailable: bool)
    requires MayBeBilled(client, ex, now, deadline) && now <= deadline
    requires RunAttempt(client, ex, now, deadline, staleKeyAvailable).0.Retry?
    ensures ex.head.result.Answered?
    ensures now + ex.connect.took + ex.head.took + ex.body.took <= deadline
    ensures var status := ex.head.result.status;
            status == 429 || 500 <= status < 600 || (staleKeyAvailable && StaleVirtualKey(status, ex.body.result.bodyType))
  {
  }

  // ---------- what an attempt comes to, by the exchange alone ----------

  /** The connection is made within its own timeout and the deadline. */
  predicate Connects(client: Client, ex: Exchange, now: nat, deadline: nat) {
    ex.connect.result && ex.connect.took <= client.connectTimeout && now + ex.connect.took <= deadline
  }

  /** The request is built, and its head comes by the deadline. */
  predicate HeadInTime(client: Client, ex: Exchange, now: nat, deadline: nat) {
    Connects(client, ex, now, deadline) && ex.built && now + ex.connect.took + ex.head.took <= deadline
  }

  /** A response head comes by the deadline, and its whole body too. */
  predicate ReplyInTime(client: Client, ex: Exchange, now: nat, deadline: nat) {
    && HeadInTime(client, ex, now, deadline) && ex.head.result.Answered?
    && now + ex.connect.took + ex.head.took + ex.body.took <= deadline
  }

  /** A head with a success status. */
  predicate Succeeds(ex: Exchange) {
    ex.head.result.Answered? && 200 <= ex.head.result.status <= 299
  }

  /** A success status in time; a call that does not stream also needs its complete body in time. */
  predicate Success(client: Client, ex: Exchange, now: nat, deadline: nat) {
    && HeadInTime(client, ex, now, deadline) && Succeeds(ex)
    && (client.streaming || (ReplyInTime(client, ex, now, deadline) && ex.body.result.complete))
  }

  /** The status and the body say that the virtual key is stale. */
  predicate StaleReply(ex: Exchange)
    requires ex.head.result.Answered?
  {
    || (ex.head.result.status == 401 && ex.body.result.bodyType == Some("access_not_found"))
    || (ex.head.result.status == 403 && ex.body.result.bodyType == Some("access_blocked"))
  }

  predicate BusyReply(ex: Exchange)
    requires ex.head.result.Answered?
  {
    ex.head.result.status == 429 || 500 <= ex.head.result.status <= 599
  }

  /** Why an attempt is retried: no connection; a recovered request; or a reply in time that is 429 or 5xx, whose
      `Retry-After` counts, or that says for the first time that the key is stale, whose `Retry-After` does not. */
  predicate Retries(client: Client, ex: Exchange, now: nat, deadline: nat, staleKeyAvailable: bool,
                    error: Error, retryAfter: Option<Duration>, staleKey: bool)
  {
    || (!Connects(client, ex, now, deadline) && error == ConnectError && retryAfter == None && !staleKey)
    || (HeadInTime(client, ex, now, deadline) && ex.head.result == Rejected
        && error == QueueRejected && retryAfter == None && !staleKey)
    || (ReplyInTime(client, ex, now, deadline) && error == StatusError(ex.head.result.status)
        && if BusyReply(ex) then retryAfter == ex.head.result.retryAfter && !staleKey
           else staleKeyAvailable && StaleReply(ex) && retryAfter == None && staleKey)
  }

  /** Why an attempt is the last one. */
  predicate Fails(client: Client, ex: Exchange, now: nat, deadline: nat, staleKeyAvailable: bool, error: Error) {
    || (Connects(client, ex, now, deadline) && !ex.built && error == BuildError)
    || (Connects(client, ex, now, deadline) && ex.built && !HeadInTime(client, ex, now, deadline) && error == Timeout)
    || (HeadInTime(client, ex, now, deadline) && ex.head.result == Broken && error == SendError)
    || (HeadInTime(client, ex, now, deadline) && ex.head.result.Answered? && !(Succeeds(ex) && client.streaming)
        && !ReplyInTime(client, ex, now, deadline) && error == Timeout)
    || (ReplyInTime(client, ex, now, deadline) && Succeeds(ex) && !client.streaming && !ex.body.result.complete
        && error == BodyError)
    || (ReplyInTime(client, ex, now, deadline) && !Succeeds(ex) && !BusyReply(ex) && !(staleKeyAvailable && StaleReply(ex))
        && error == StatusError(ex.head.result.status))
  }

  /** When an attempt is over. */
  function EndsAt(client: Client, ex: Exchange, now: nat, deadline: nat): nat {
    if !Connects(client, ex, now, deadline) then Min(now + ex.connect.took, Min(now + client.connectTimeout, deadline))
    else if !ex.built then now + ex.connect.took
    else if !HeadInTime(client, ex, now, deadline) then deadline
    else if !ex.head.result.Answered? || (Succeeds(ex) && client.streaming) then now + ex.connect.took + ex.head.took
    else Min(now + ex.connect.took + ex.head.took + ex.body.took, deadline)
  }

  /** An attempt is done exactly on a success in time. */
  lemma DoneExactly(client: Client, ex: Exchange, now: nat, deadline: nat, staleKeyAvailable: bool)
    requires now <= deadline
    ensures RunAttempt(client, ex, now, deadline, staleKeyAvailable).0 == Done <==> Success(client, ex, now, deadline)
  {
  }

  /** An attempt is retried exactly for one of the three reasons, with exactly that error, delay and key flag. */
  lemma RetryExactly(client: Client, ex: Exchange, now: nat, deadline: nat, staleKeyAvailable: bool,
                     error: Error, retryAfter: Option<Duration>, staleKey: bool)
    requires now <= deadline
    ensures RunAttempt(client, ex, now, deadline, staleKeyAvailable).0 == Retry(error, retryAfter, staleKey)
       <==> Retries(client, ex, now, deadline, staleKeyAvailable, error, retryAfter, staleKey)
  {
  }

  lemma FailsExactly(client: Client, ex: Exchange, now: nat, deadline: nat, staleKeyAvailable: bool, error: Error)
    requires now <= deadline
    ensures RunAttempt(client, ex, now, deadline, staleKeyAvailable).0 == Terminal(error)
       <==> Fails(client, ex, now, deadline, staleKeyAvailable, error)
  {
  }

  lemma EndsExactly(client: Client, ex: Exchange, now: nat, deadline: nat, staleKeyAvailable: bool)
    requires now <= deadline
    ensures RunAttempt(client, ex, now, deadline, staleKeyAvailable).1 == EndsAt(client, ex, now, deadline)
  {
  }

  // ---------- delays ----------

  function Min(a: nat, b: nat): nat {
    if a < b then a else b
  }

  function Pow2(n: nat): (p: nat)
    ensures p > 0
  {
    if n == 0 then 1 else 2 * Pow2(n - 1)
  }

  /** The exponential ceiling, saturated at every step as 32-bit and duration arithmetic do. */
  function Ceiling(policy: Policy, attempt: nat): (c: nat)
    ensures c <= policy.maxBackoff
  {
    var factor := Min(Pow2(if attempt == 0 then 0 else attempt - 1), U32_MAX);
    Min(Min(policy.initialBackoff * factor, DURATION_MAX), policy.maxBackoff)
  }

  type Fraction = f: real | 0.0 <= f < 1.0

  /** Full jitter. */
  function Jittered(base: nat, f: Fraction): nat
  {
    var scaled := base as real * f;
    assert scaled >= 0.0;
    scaled.Floor
  }

  function Delay(policy: Policy, attempt: nat, retryAfter: Option<Duration>, f: Fraction): nat {
    match retryAfter
    case Some(after) => Min(after, policy.maxBackoff)
    case None => Jittered(Ceiling(policy, attempt), f)
  }

  /** `retryable_delay`: none when the next attempt could not start before the deadline. */
  function RetryableDelay(policy: Policy, attempt: nat, retryAfter: Option<Duration>, f: Fraction, now: nat, deadline: nat):
    Option<nat>
  {
    var delay := Delay(policy, attempt, retryAfter, f);
    if now + delay < deadline then Some(delay) else None
  }

  lemma JitterBounds(base: nat, f: Fraction)
    ensures Jittered(base, f) <= base
  {
    var scaled := base as real * f;
    ScaledDown(base as real, 1.0 - f);
    assert scaled == base as real - base as real * (1.0 - f);
    assert scaled.Floor as real <= scaled;
  }

  lemma ScaledDown(b: real, f: real)
    requires b >= 0.0 && f >= 0.0
    ensures b * f >= 0.0
  {
  }

  /** A `Retry-After` is kept exactly, up to the ceiling; without one the delay is at most the exponential ceiling. */
  lemma DelayBounds(policy: Policy, attempt: nat, retryAfter: Option<Duration>, f: Fraction)
    ensures Delay(policy, attempt, retryAfter, f) <= policy.maxBackoff
    ensures retryAfter.Some? ==> Delay(policy, attempt, retryAfter, f) == Min(retryAfter.value, policy.maxBackoff)
    ensures retryAfter.None? ==> Delay(policy, attempt, retryAfter, f) <= Ceiling(policy, attempt)
  {
    JitterBounds(Ceiling(policy, attempt), f);
  }

  lemma {:induction false} Pow2Grows(a: nat, b: nat)
    requires a <= b
    ensures Pow2(a) <= Pow2(b)
    decreases b - a
  {
    if a < b { Pow2Grows(a, b - 1); }
  }

  lemma Pow2At32()
    ensures Pow2(31) <= U32_MAX < Pow2(32)
  {
    assert Pow2(8) == 256;
    assert Pow2(16) == 65536;
    assert Pow2(24) == 16777216;
    assert Pow2(31) == 2147483648;
  }

  /** The saturated ceiling is the plain one, `initial * 2^(attempt-1)` cut at the maximum, exactly while the factor
      fits 32 bits or the maximum is reached anyway. */
  lemma CeilingIsExponential(policy: Policy, attempt: nat)
    requires attempt >= 1
    ensures Ceiling(policy, attempt) == Min(policy.initialBackoff * Pow2(attempt - 1), policy.maxBackoff)
       <==> attempt <= 32 || policy.initialBackoff == 0 || policy.initialBackoff * U32_MAX >= policy.maxBackoff
  {
    Pow2At32();
    if attempt <= 32 {
      Pow2Grows(attempt - 1, 31);
    } else {
      Pow2Grows(32, attempt - 1);
    }
    hide Pow2;
    SaturationCases(policy.initialBackoff, Pow2(attempt - 1), policy.maxBackoff);
  }

  /** Cutting the factor matters only below the maximum. */
  lemma SaturationCases(initial: Duration, p: nat, max: Duration)
    ensures Min(Min(initial * Min(p, U32_MAX), DURATION_MAX), max) == Min(initial * p, max)
       <==> p <= U32_MAX || initial == 0 || initial * U32_MAX >= max
  {
    if p > U32_MAX {
      var whole, cut := initial * p, initial * U32_MAX;
      Factor(initial, U32_MAX, p);
      assert cut <= whole && (initial > 0 ==> cut < whole);
      assert Min(p, U32_MAX) == U32_MAX;
    }
  }

  lemma Factor(a: nat, x: nat, y: nat)
    requires x < y
    ensures a * x <= a * y && (a > 0 ==> a * x < a * y)
  {
    assert a * y == a * x + a * (y - x);
  }

  // ---------- the loop ----------

  /** What the environment decides about one turn of the loop: how late the loop gets the processor, what the network
      does, and the jitter drawn. */
  datatype Turn = Turn(late: nat, exchange: Exchange, jitter: Fraction)

  /** One attempt as it happened; `delay` is the sleep after it. */
  datatype Entry = Entry(started: nat, result: AttemptResult, finished: nat, delay: Option<nat>)

  function Slept(e: Entry): nat {
    if e.delay.Some? then e.delay.value else 0
  }

  datatype Outcome = Finished | Failure(error: Error)

  function MaxAttempts(policy: Policy): nat {
    if policy.maxAttempts == 0 then 1 else policy.maxAttempts
  }

  predicate StaleUsed(log: seq<Entry>) {
    exists k :: 0 <= k < |log| && log[k].result.Retry? && log[k].result.staleKey
  }

  /** When the loop looks at the clock after the attempts of `log`. */
  function Head(start: nat, turns: seq<Turn>, log: seq<Entry>): nat
    requires |log| < |turns|
  {
    turns[|log|].late + (if log == [] then start
                         else log[|log| - 1].finished + Slept(log[|log| - 1]))
  }

  /** Entry `k` is what the loop does with turn `k` after the attempts before it. */
  predicate EntryOk(client: Client, start: nat, deadline: nat, turns: seq<Turn>, log: seq<Entry>, k: nat)
    requires k < |log| <= |turns|
  {
    var before, e := log[..k], log[k];
    && e.started == Head(start, turns, before) && e.started < deadline
    && (e.result, e.finished)
       == RunAttempt(client, turns[k].exchange, e.started, deadline, !StaleUsed(before) && k + 1 < MaxAttempts(client.policy))
    && e.delay == (if e.result.Retry? then
                     RetryableDelay(client.policy, k + 1, e.result.retryAfter, turns[k].jitter, e.finished, deadline)
                   else None)
    && (k + 1 < |log| ==> e.delay.Some?)
  }

  /** A run of the loop up to some point. */
  predicate LogOk(client: Client, start: nat, deadline: nat, turns: seq<Turn>, log: seq<Entry>) {
    && |log| <= MaxAttempts(client.policy) && |log| <= |turns|
    && forall k :: 0 <= k < |log| ==> EntryOk(client, start, deadline, turns, log, k)
  }

  /** The run is over: by its last attempt, for lack of attempts, or for lack of time. */
  predicate Stopped(client: Client, start: nat, deadline: nat, turns: seq<Turn>, log: seq<Entry>) {
    || (log != [] && log[|log| - 1].delay.None?)
    || |log| == MaxAttempts(client.policy)
    || (|log| < |turns| && Head(start, turns, log) >= deadline)
  }

  function OutcomeOf(log: seq<Entry>): Outcome {
    if log == [] then Failure(Timeout)
    else
      match log[|log| - 1].result
      case Done => Finished
      case Retry(error, _, _) => Failure(error)
      case Terminal(error) => Failure(error)
  }

  lemma EntryStays(client: Client, start: nat, deadline: nat, turns: seq<Turn>, log: seq<Entry>, e: Entry)
    requires LogOk(client, start, deadline, turns, log) && |log| < |turns| && |log| < MaxAttempts(client.policy)
    requires log != [] ==> log[|log| - 1].delay.Some?
    requires EntryOk(client, start, deadline, turns, log + [e], |log|)
    ensures LogOk(client, start, deadline, turns, log + [e])
  {
    var all := log + [e];
    forall k | 0 <= k < |all|
      ensures EntryOk(client, start, deadline, turns, all, k)
    {
      if k < |log| {
        assert EntryOk(client, start, deadline, turns, log, k);
        assert all[..k] == log[..k] && all[k] == log[k];
      }
    }
  }

  /** `run_loop`. */
  method RunLoop(client: Client, timeout: nat, start: nat, turns: seq<Turn>)
    returns (outcome: Outcome, log: seq<Entry>)
    requires |turns| >= MaxAttempts(client.policy)
    ensures LogOk(client, start, start + timeout, turns, log)
    ensures Stopped(client, start, start + timeout, turns, log)
    ensures outcome == OutcomeOf(log)
    ensures outcome.Finished? <==>
              log != [] && Success(client, turns[|log| - 1].exchange, log[|log| - 1].started, start + timeout)
  {
    hide LogOk, EntryOk, RetryableDelay, RunAttempt, Success;
    var deadline := start + timeout;
    var maxAttempts := if client.policy.maxAttempts < 1 then 1 else client.policy.maxAttempts;
    var staleKeyUsed := false;
    var lastError: Option<Error> := None;
    var now := start;
    log := [];
    StartOk(client, start, deadline, turns);
    for attempt := 1 to maxAttempts + 1
      invariant |log| == attempt - 1 && LogOk(client, start, deadline, turns, log)
      invariant staleKeyUsed == StaleUsed(log)
      invariant log == [] ==> now == start && lastError == None
      invariant log != [] ==>
                  var e := log[|log| - 1];
                  e.delay.Some? && now == e.finished + e.delay.value && e.result.Retry? && lastError == Some(e.result.error)
    {
      now := now + turns[attempt - 1].late;
      if now >= deadline { break; }
      var attemptsRemain := attempt < maxAttempts;
      var staleKeyAvailable := !staleKeyUsed && attemptsRemain;
      var started := now;
      var (result, finished) := RunAttempt(client, turns[attempt - 1].exchange, started, deadline, staleKeyAvailable);
      now := finished;
      ghost var before := log;
      match result {
        case Done =>
          log := log + [Entry(started, result, now, None)];
          LogGrows(client, start, deadline, turns, before, log[attempt - 1]);
          FinishedExactly(client, start, deadline, turns, log);
          return Finished, log;
        case Retry(error, retryAfter, staleKey) =>
          lastError := Some(error);
          var delay := RetryableDelay(client.policy, attempt, retryAfter, turns[attempt - 1].jitter, now, deadline);
          log := log + [Entry(started, result, now, delay)];
          LogGrows(client, start, deadline, turns, before, log[attempt - 1]);
          StaleGrows(before, log[attempt - 1]);
          if staleKey { staleKeyUsed := true; }
          if delay.None? { break; }
          now := now + delay.value;
        case Terminal(error) =>
          lastError := Some(error);
          log := log + [Entry(started, result, now, None)];
          LogGrows(client, start, deadline, turns, before, log[attempt - 1]);
          break;
      }
    }
    FinishedExactly(client, start, deadline, turns, log);
    return Failure(if lastError.Some? then lastError.value else Timeout), log;
  }

  /** The loop finishes exactly on a success in time of its last attempt. */
  lemma FinishedExactly(client: Client, start: nat, deadline: nat, turns: seq<Turn>, log: seq<Entry>)
    requires LogOk(client, start, deadline, turns, log)
    ensures OutcomeOf(log) == Finished <==>
              log != [] && Success(client, turns[|log| - 1].exchange, log[|log| - 1].started, deadline)
  {
    hide RunAttempt, RetryableDelay, StaleUsed, Success;
    if log != [] {
      var k := |log| - 1;
      assert EntryOk(client, start, deadline, turns, log, k);
      DoneExactly(client, turns[k].exchange, log[k].started, deadline, !StaleUsed(log[..k]) && k + 1 < MaxAttempts(client.policy));
    }
  }

  lemma StartOk(client: Client, start: nat, deadline: nat, turns: seq<Turn>)
    ensures LogOk(client, start, deadline, turns, []) && !StaleUsed([])
  {
  }

  lemma StaleGrows(log: seq<Entry>, e: Entry)
    ensures StaleUsed(log + [e]) <==> StaleUsed(log) || (e.result.Retry? && e.result.staleKey)
  {
    var all := log + [e];
    assert forall k :: 0 <= k < |log| ==> all[k] == log[k];
    if StaleUsed(log) {
      var k :| 0 <= k < |log| && log[k].result.Retry? && log[k].result.staleKey;
      assert all[k] == log[k];
    }
    if e.result.Retry? && e.result.staleKey {
      assert all[|log|] == e;
    }
  }

  lemma LogGrows(client: Client, start: nat, deadline: nat, turns: seq<Turn>, log: seq<Entry>, e: Entry)
    requires LogOk(client, start, deadline, turns, log) && |log| < |turns| && |log| < MaxAttempts(client.policy)
    requires log != [] ==> log[|log| - 1].delay.Some?
    requires e.started == Head(start, turns, log) && e.started < deadline
    requires (e.result, e.finished)
          == RunAttempt(client, turns[|log|].exchange, e.started, deadline, !StaleUsed(log) && |log| + 1 < MaxAttempts(client.policy))
    requires e.delay == (if e.result.Retry? then
                           RetryableDelay(client.policy, |log| + 1, e.result.retryAfter, turns[|log|].jitter, e.finished, deadline)
                         else None)
    ensures LogOk(client, start, deadline, turns, log + [e])
  {
    hide RetryableDelay, RunAttempt, StaleUsed;
    assert (log + [e])[..|log|] == log;
    EntryStays(client, start, deadline, turns, log, e);
  }

  // ---------- what holds of every run ----------

  /** After a request that may have been billed there is another attempt only when the gateway's complete reply was 429, a
      server error, or for the first time in the run that the virtual key is stale. */
  lemma RetriedOnlyWhenSafe(client: Client, start: nat, deadline: nat, turns: seq<Turn>, log: seq<Entry>, k: nat)
    requires LogOk(client, start, deadline, turns, log) && k + 1 < |log|
    ensures log[k].result.Retry?
    ensures var ex := turns[k].exchange;
            MayBeBilled(client, ex, log[k].started, deadline) ==>
              && ex.head.result.Answered?
              && log[k].started + ex.connect.took + ex.head.took + ex.body.took <= deadline
              && (ex.head.result.status == 429 || 500 <= ex.head.result.status < 600
                  || (StaleVirtualKey(ex.head.result.status, ex.body.result.bodyType) && !StaleUsed(log[..k])))
  {
    hide RetryableDelay, StaleUsed, RunAttempt, MayBeBilled;
    assert EntryOk(client, start, deadline, turns, log, k);
    if MayBeBilled(client, turns[k].exchange, log[k].started, deadline) {
      BilledRetry(client, turns[k].exchange, log[k].started, deadline, !StaleUsed(log[..k]) && k + 1 < MaxAttempts(client.policy));
    }
  }

  /** The stale key is retried at most once, and never by the last attempt allowed. */
  lemma StaleKeyOnce(client: Client, start: nat, deadline: nat, turns: seq<Turn>, log: seq<Entry>, i: nat, j: nat)
    requires LogOk(client, start, deadline, turns, log) && i < |log| && j < |log|
    requires log[i].result.Retry? && log[i].result.staleKey && log[j].result.Retry? && log[j].result.staleKey
    ensures i == j && i + 1 < MaxAttempts(client.policy)
  {
    hide RetryableDelay, LogOk;
    StaleIsLast(client, start, deadline, turns, log, i);
    if i < j {
      StaleNotAgain(client, start, deadline, turns, log, i, j);
    } else if j < i {
      StaleNotAgain(client, start, deadline, turns, log, j, i);
    }
  }

  lemma StaleIsLast(client: Client, start: nat, deadline: nat, turns: seq<Turn>, log: seq<Entry>, i: nat)
    requires LogOk(client, start, deadline, turns, log) && i < |log|
    requires log[i].result.Retry? && log[i].result.staleKey
    ensures i + 1 < MaxAttempts(client.policy)
  {
    hide RetryableDelay;
    assert EntryOk(client, start, deadline, turns, log, i);
  }

  lemma StaleNotAgain(client: Client, start: nat, deadline: nat, turns: seq<Turn>, log: seq<Entry>, i: nat, j: nat)
    requires LogOk(client, start, deadline, turns, log) && i < j < |log|
    requires log[i].result.Retry? && log[i].result.staleKey
    ensures !(log[j].result.Retry? && log[j].result.staleKey)
  {
    hide RetryableDelay;
    assert log[..j][i] == log[i];
    assert StaleUsed(log[..j]);
    assert EntryOk(client, start, deadline, turns, log, j);
  }

  /** Every attempt starts and every sleep ends before the deadline, and no attempt outlasts it. */
  lemma WithinDeadline(client: Client, start: nat, deadline: nat, turns: seq<Turn>, log: seq<Entry>, k: nat)
    requires LogOk(client, start, deadline, turns, log) && k < |log|
    ensures log[k].started < deadline && log[k].finished <= deadline
    ensures log[k].delay.Some? ==> log[k].finished + log[k].delay.value < deadline
    ensures k + 1 < |log| ==> log[k + 1].started == log[k].finished + Slept(log[k]) + turns[k + 1].late
  {
    hide RunAttempt, StaleUsed, Delay;
    assert EntryOk(client, start, deadline, turns, log, k);
    AttemptEndsInTime(client, turns[k].exchange, log[k].started, deadline, !StaleUsed(log[..k]) && k + 1 < MaxAttempts(client.policy));
    if k + 1 < |log| {
      assert EntryOk(client, start, deadline, turns, log, k + 1);
      assert log[..k + 1][k] == log[k];
    }
  }

  /** When the loop returns: after its last attempt, or where it last looked at the clock. */
  function Returned(client: Client, start: nat, turns: seq<Turn>, log: seq<Entry>): nat {
    if log != [] && (log[|log| - 1].delay.None?) then log[|log| - 1].finished
    else if |log| < MaxAttempts(client.policy) && |log| < |turns| then Head(start, turns, log)
    else if log == [] then start
    else log[|log| - 1].finished + Slept(log[|log| - 1])
  }

  /** The loop returns by the deadline, but for the lateness of its last look at the clock. */
  lemma ReturnsByDeadline(client: Client, start: nat, deadline: nat, turns: seq<Turn>, log: seq<Entry>)
    requires LogOk(client, start, deadline, turns, log) && start <= deadline
    ensures Returned(client, start, turns, log) <= deadline + (if |log| < |turns| then turns[|log|].late else 0)
  {
    hide LogOk;
    if log != [] {
      WithinDeadline(client, start, deadline, turns, log, |log| - 1);
    }
  }

  /** With a punctual processor a run without attempts means there was no time at all, and the loop never finds the
      deadline passed between attempts: it stops by its last attempt, or for lack of attempts. */
  lemma PunctualStops(client: Client, start: nat, deadline: nat, turns: seq<Turn>, log: seq<Entry>)
    requires LogOk(client, start, deadline, turns, log) && Stopped(client, start, deadline, turns, log) && start <= deadline
    requires forall k :: 0 <= k < |turns| ==> turns[k].late == 0
    ensures Returned(client, start, turns, log) <= deadline
    ensures log == [] <==> start == deadline
    ensures log != [] ==> log[|log| - 1].delay.None? || |log| == MaxAttempts(client.policy)
  {
    if log != [] {
      hide LogOk;
      WithinDeadline(client, start, deadline, turns, log, |log| - 1);
      WithinDeadline(client, start, deadline, turns, log, 0);
      FirstStarts(client, start, deadline, turns, log);
    }
  }

  lemma FirstStarts(client: Client, start: nat, deadline: nat, turns: seq<Turn>, log: seq<Entry>)
    requires LogOk(client, start, deadline, turns, log) && log != []
    ensures log[0].started == start + turns[0].late < deadline
  {
    hide RunAttempt, RetryableDelay, StaleUsed;
    assert EntryOk(client, start, deadline, turns, log, 0);
  }

  /** The delay between two attempts: the server's own, up to the maximum, else at most the exponential ceiling. */
  lemma DelaysAreBounded(client: Client, start: nat, deadline: nat, turns: seq<Turn>, log: seq<Entry>, k: nat)
    requires LogOk(client, start, deadline, turns, log) && k < |log| && log[k].delay.Some?
    ensures var delay := log[k].delay.value;
            log[k].result.Retry? &&
            match log[k].result.retryAfter
            case Some(after) => delay == Min(after, client.policy.maxBackoff)
            case None =>
              && delay <= Ceiling(client.policy, k + 1)
              && delay as real <= Ceiling(client.policy, k + 1) as real * turns[k].jitter < (delay + 1) as real
  {
    hide RunAttempt, StaleUsed, Ceiling;
    assert EntryOk(client, start, deadline, turns, log, k);
    DelayBounds(client.policy, k + 1, log[k].result.retryAfter, turns[k].jitter);
  }

  /** How a run goes on and ends, by the exchanges alone. There are at most as many attempts as the policy allows, and one
      if it allows none; every attempt but the last was retried for one of the three reasons; the run finishes exactly on a
      success, and else fails with the error of its last attempt, or with a timeout when there was none. */
  lemma RunIsExact(client: Client, start: nat, deadline: nat, turns: seq<Turn>, log: seq<Entry>)
    requires LogOk(client, start, deadline, turns, log)
    ensures |log| <= client.policy.maxAttempts || |log| <= 1
    ensures forall k :: 0 <= k < |log| - 1 ==>
              && log[k].result.Retry?
              && Retries(client, turns[k].exchange, log[k].started, deadline, KeyAvailable(client, log, k),
                         log[k].result.error, log[k].result.retryAfter, log[k].result.staleKey)
    ensures forall k :: 0 <= k < |log| ==> log[k].finished == EndsAt(client, turns[k].exchange, log[k].started, deadline)
    ensures log == [] ==> OutcomeOf(log) == Failure(Timeout)
    ensures log != [] ==>
              var k := |log| - 1;
              var ex, now := turns[k].exchange, log[k].started;
              match OutcomeOf(log)
              case Finished => Success(client, ex, now, deadline)
              case Failure(error) =>
                || Fails(client, ex, now, deadline, KeyAvailable(client, log, k), error)
                || exists after, stale :: Retries(client, ex, now, deadline, KeyAvailable(client, log, k), error, after, stale)
  {
    hide EntryOk, Retries, Fails, Success, EndsAt, KeyAvailable;
    forall k | 0 <= k < |log|
      ensures log[k].finished == EndsAt(client, turns[k].exchange, log[k].started, deadline)
      ensures k < |log| - 1 ==> log[k].result.Retry?
      ensures EntryMeans(client, turns[k].exchange, deadline, KeyAvailable(client, log, k), log[k])
    {
      EntryIsExact(client, start, deadline, turns, log, k);
    }
    if log != [] {
      assert EntryMeans(client, turns[|log| - 1].exchange, deadline, KeyAvailable(client, log, |log| - 1), log[|log| - 1]);
    }
  }

  /** The key counts as stale for the first time, and there is an attempt left to use the new one. */
  predicate KeyAvailable(client: Client, log: seq<Entry>, k: nat)
    requires k < |log|
  {
    && k + 1 < client.policy.maxAttempts
    && forall j :: 0 <= j < k ==> !(log[j].result.Retry? && log[j].result.staleKey)
  }

  predicate EntryMeans(client: Client, ex: Exchange, deadline: nat, available: bool, e: Entry) {
    match e.result
    case Done => Success(client, ex, e.started, deadline)
    case Retry(error, after, stale) => Retries(client, ex, e.started, deadline, available, error, after, stale)
    case Terminal(error) => Fails(client, ex, e.started, deadline, available, error)
  }

  lemma EntryIsExact(client: Client, start: nat, deadline: nat, turns: seq<Turn>, log: seq<Entry>, k: nat)
    requires LogOk(client, start, deadline, turns, log) && k < |log|
    ensures log[k].finished == EndsAt(client, turns[k].exchange, log[k].started, deadline)
    ensures k < |log| - 1 ==> log[k].result.Retry?
    ensures EntryMeans(client, turns[k].exchange, deadline, KeyAvailable(client, log, k), log[k])
  {
    hide RunAttempt, RetryableDelay, Retries, Fails, Success, EndsAt;
    assert EntryOk(client, start, deadline, turns, log, k);
    var ex, now, available := turns[k].exchange, log[k].started, KeyAvailable(client, log, k);
    assert forall j :: 0 <= j < k ==> log[..k][j] == log[j];
    assert available == (!StaleUsed(log[..k]) && k + 1 < MaxAttempts(client.policy));
    EndsExactly(client, ex, now, deadline, available);
    match log[k].result
    case Done => DoneExactly(client, ex, now, deadline, available);
    case Retry(error, after, stale) => RetryExactly(client, ex, now, deadline, available, error, after, stale);
    case Terminal(error) => FailsExactly(client, ex, now, deadline, available, error);
  }

  /** A run gives up on a retryable attempt with attempts left only for lack of time: the delay would have reached the
      deadline, or the loop woke up late. */
  lemma GivesUpForTimeOnly(client: Client, start: nat, deadline: nat, turns: seq<Turn>, log: seq<Entry>) returns (delay: nat)
    requires LogOk(client, start, deadline, turns, log) && Stopped(client, start, deadline, turns, log)
    requires log != [] && log[|log| - 1].result.Retry? && |log| < client.policy.maxAttempts && |log| < |turns|
    ensures var last := log[|log| - 1];
            && (match last.result.retryAfter
                case Some(after) => delay == Min(after, client.policy.maxBackoff)
                case None => delay as real <= Ceiling(client.policy, |log|) as real * turns[|log| - 1].jitter < (delay + 1) as real)
            && last.finished + delay + turns[|log|].late >= deadline
            && (last.finished + delay < deadline ==> last.delay == Some(delay))
  {
    hide RunAttempt, StaleUsed, Ceiling;
    var k := |log| - 1;
    assert EntryOk(client, start, deadline, turns, log, k);
    delay := Delay(client.policy, |log|, log[k].result.retryAfter, turns[k].jitter);
  }
}
