/** Submitting to Fabric: a semaphore bounds the submissions in flight, and each one retries transient
    failures with exponential backoff. Durations are in nanoseconds. */
module Retry {
  import opened Common

  datatype Config = Config(maxAttempts: int, initialBackoff: int, maxBackoff: int, multiplier: real)

  /** What one attempt returned: a result, or an error whose text is in lower case. `committed` says
      whether the ledger took the transaction, which a failed attempt may not know. */
  datatype Outcome =
    | Success(txID: string)
    | Failure(message: string, committed: bool)

  datatype Answer =
    | Submitted(txID: string)
    | LastError(message: string)
    | NotConnected
    | CancelledWaiting
    | CancelledRetrying

  const DEFAULT_CAPACITY := 200
  const DEFAULT_BACKOFF := 100_000_000
  const DEFAULT_MAX_BACKOFF := 5_000_000_000

  function Capacity(maxConcurrent: int): nat {
    if maxConcurrent > 0 then maxConcurrent else DEFAULT_CAPACITY
  }

  function Attempts(c: Config): (r: int)
    ensures r >= 1
  {
    if c.maxAttempts <= 0 then 1 else c.maxAttempts
  }

  function Initial(c: Config): (r: int)
    ensures r > 0
  {
    if c.initialBackoff <= 0 then DEFAULT_BACKOFF else c.initialBackoff
  }

  function Limit(c: Config): (r: int)
    ensures r > 0
  {
    if c.maxBackoff <= 0 then DEFAULT_MAX_BACKOFF else c.maxBackoff
  }

  function Multiplier(c: Config): (r: real)
    ensures r > 0.0
  {
    if c.multiplier <= 0.0 then 2.0 else c.multiplier
  }

  /******* Which errors are retried *******/

  const RETRY_PATTERNS := [
    "unavailable", "deadline exceeded", "connection refused", "transport is closing",
    "mvcc_read_conflict", "phantom_read_conflict", "service is closing", "too many requests",
    "exceeding concurrency", "resource exhausted"]

  predicate At(s: string, p: string, i: int) {
    0 <= i <= |s| - |p| && s[i..i + |p|] == p
  }

  predicate Contains(s: string, p: string) {
    exists i :: 0 <= i <= |s| && At(s, p, i)
  }

  predicate Retryable(message: string) {
    exists p :: p in RETRY_PATTERNS && Contains(message, p)
  }

  method IsRetryable(message: string) returns (r: bool)
    ensures r <==> Retryable(message)
  {
    for i := 0 to |RETRY_PATTERNS|
      invariant forall j :: 0 <= j < i ==> !Contains(message, RETRY_PATTERNS[j])
    {
      if Contains(message, RETRY_PATTERNS[i]) {
        assert RETRY_PATTERNS[i] in RETRY_PATTERNS;
        return true;
      }
    }
    return false;
  }

  lemma EndsWith(prefix: string, p: string)
    ensures Contains(prefix + p, p)
  {
    assert At(prefix + p, p, |prefix|);
  }

  ghost predicate Occurs(p: string, message: string) {
    exists before: string, after: string :: message == before + p + after
  }

  lemma ContainsOccurs(s: string, p: string)
    ensures Contains(s, p) <==> Occurs(p, s)
  {
    if Contains(s, p) {
      var i :| 0 <= i <= |s| && At(s, p, i);
      assert s == s[..i] + p + s[i + |p|..];
    }
    if before: string, after: string :| s == before + p + after {
      assert At(s, p, |before|);
    }
  }

  /** The texts that are retried. */
  lemma RetriedTexts(message: string)
    ensures Retryable(message) <==>
            || Occurs("unavailable", message) || Occurs("deadline exceeded", message)
            || Occurs("connection refused", message) || Occurs("transport is closing", message)
            || Occurs("mvcc_read_conflict", message) || Occurs("phantom_read_conflict", message)
            || Occurs("service is closing", message) || Occurs("too many requests", message)
            || Occurs("exceeding concurrency", message) || Occurs("resource exhausted", message)
  {
    RetryableCases(message);
    ContainsOccurs(message, "unavailable");
    ContainsOccurs(message, "deadline exceeded");
    ContainsOccurs(message, "connection refused");
    ContainsOccurs(message, "transport is closing");
    ContainsOccurs(message, "mvcc_read_conflict");
    ContainsOccurs(message, "phantom_read_conflict");
    ContainsOccurs(message, "service is closing");
    ContainsOccurs(message, "too many requests");
    ContainsOccurs(message, "exceeding concurrency");
    ContainsOccurs(message, "resource exhausted");
  }

  lemma RetryableCases(message: string)
    ensures Retryable(message) <==>
            || Contains(message, "unavailable") || Contains(message, "deadline exceeded")
            || Contains(message, "connection refused") || Contains(message, "transport is closing")
            || Contains(message, "mvcc_read_conflict") || Contains(message, "phantom_read_conflict")
            || Contains(message, "service is closing") || Contains(message, "too many requests")
            || Contains(message, "exceeding concurrency") || Contains(message, "resource exhausted")
  {
    var patterns := RETRY_PATTERNS;
    assert Retryable(message) <==> exists j :: 0 <= j < |patterns| && Contains(message, patterns[j]);
    assert |patterns| == 10;
  }

  predicate TransientFailure(o: Outcome) {
    o.Failure? && Retryable(o.message)
  }

  predicate Hex(s: string) {
    forall i :: 0 <= i < |s| ==> '0' <= s[i] <= '9' || 'a' <= s[i] <= 'f'
  }

  /** The error of a transaction that was ordered and then failed validation, its code in decimal. */
  function FailedCommit(txID: string, code: string): string {
    "transaction " + txID + " failed with code " + code
  }

  lemma ContainedChars(s: string, p: string, k: nat)
    requires Contains(s, p) && k < |p|
    ensures p[k] in s
  {
    var i :| 0 <= i <= |s| && At(s, p, i);
    assert s[i + k] == s[i..i + |p|][k];
  }

  /** Two of the patterns name validation conflicts, but an attempt whose transaction fails validation
      reports the code as a number and matches no pattern: it is never retried. */
  lemma ConflictsAreNotRetried(txID: string, code: string)
    requires Hex(txID) && forall i :: 0 <= i < |code| ==> '0' <= code[i] <= '9'
    ensures !Retryable(FailedCommit(txID, code))
  {
    var s := FailedCommit(txID, code);
    forall c | c in ['u', 'x', 'p', 'm', 'v']
      ensures c !in s
    {
      assert c !in "transaction " && c !in txID && c !in " failed with code " && c !in code;
    }
    forall p | p in RETRY_PATTERNS
      ensures !Contains(s, p)
    {
      var k := FirstTelling(p);
      if Contains(s, p) {
        ContainedChars(s, p, k);
        assert false;
      }
    }
  }

  /** A letter of each pattern that no such message has. */
  lemma FirstTelling(p: string) returns (k: nat)
    requires p in RETRY_PATTERNS
    ensures k < |p| && p[k] in ['u', 'x', 'p', 'm', 'v']
  {
    k := if p == "unavailable" then 0
         else if p == "deadline exceeded" then 10
         else if p == "connection refused" then 14
         else if p == "transport is closing" then 5
         else if p == "mvcc_read_conflict" then 0
         else if p == "phantom_read_conflict" then 0
         else if p == "service is closing" then 3
         else if p == "too many requests" then 4
         else if p == "exceeding concurrency" then 1
         else 4;
  }

  /******* Backoff *******/

  function Min(a: real, b: real): real {
    if a <= b then a else b
  }

  function Grow(c: Config, backoff: int): int {
    Min(backoff as real * Multiplier(c), Limit(c) as real).Floor
  }

  /** The wait after attempt k + 1. */
  function Backoff(c: Config, k: nat): int {
    if k == 0 then Initial(c) else Grow(c, Backoff(c, k - 1))
  }

  function Power(m: int, k: nat): int {
    if k == 0 then 1 else m * Power(m, k - 1)
  }

  /** Every wait but the first is at most the limit; none is negative. */
  lemma {:induction false} BackoffBounded(c: Config, k: nat)
    ensures Backoff(c, k) >= 0
    ensures k >= 1 ==> Backoff(c, k) <= Limit(c)
  {
    if k >= 1 {
      BackoffBounded(c, k - 1);
      assert Backoff(c, k - 1) as real * Multiplier(c) >= 0.0;
    }
  }

  /** With an integer multiplier m the k-th wait is the smaller of initial * m^k and the limit. */
  lemma {:induction false} BackoffIsGeometric(c: Config, m: int, k: nat)
    requires m >= 1 && Multiplier(c) == m as real && k >= 1
    ensures Backoff(c, k) == if Initial(c) * Power(m, k) <= Limit(c) then Initial(c) * Power(m, k) else Limit(c)
  {
    if k == 1 {
      assert Backoff(c, 0) == Initial(c) && Power(m, 1) == m * Power(m, 0) == m;
      GrowByInteger(c, m, Initial(c));
    } else {
      BackoffIsGeometric(c, m, k - 1);
      var before := Initial(c) * Power(m, k - 1);
      assert Initial(c) * Power(m, k) == before * m by {
        Reorder(Initial(c), m, Power(m, k - 1));
      }
      GrowByInteger(c, m, Backoff(c, k - 1));
      if before > Limit(c) {
        Scale(Limit(c), m);
        Scale(before, m);
      }
    }
  }

  lemma GrowByInteger(c: Config, m: int, backoff: int)
    requires Multiplier(c) == m as real
    ensures Grow(c, backoff) == if backoff * m <= Limit(c) then backoff * m else Limit(c)
  {
    assert backoff as real * m as real == (backoff * m) as real;
  }

  lemma Reorder(a: int, m: int, p: int)
    ensures a * (m * p) == a * p * m
  {
  }

  lemma Scale(x: int, m: int)
    requires x > 0 && m >= 1
    ensures x * m >= x
  {
  }

  function Sum(s: seq<int>): int {
    if s == [] then 0 else Sum(s[..|s| - 1]) + s[|s| - 1]
  }

  /** A sum whose first term is `first` and whose others are at most `limit`. */
  lemma {:induction false} SumBounded(terms: seq<int>, first: int, limit: int)
    requires terms != [] && terms[0] <= first
    requires forall k :: 1 <= k < |terms| ==> terms[k] <= limit
    ensures Sum(terms) <= first + (|terms| - 1) * limit
  {
    var n := |terms| - 1;
    if n == 0 {
      assert terms[..0] == [];
    } else {
      SumBounded(terms[..n], first, limit);
      assert (n - 1) * limit + limit == n * limit;
    }
  }

  /******* One submission *******/

  /** What a submission does to the outside: the outcomes of its attempts and its waits, an interrupted
      wait counting in full. */
  datatype Log = Log(calls: seq<Outcome>, waits: seq<int>)

  /** The first n waits. */
  function Plan(c: Config, n: nat): seq<int> {
    seq(n, k requires 0 <= k => Backoff(c, k))
  }

  lemma PlanGrows(c: Config, n: nat)
    ensures Plan(c, n + 1) == Plan(c, n) + [Backoff(c, n)]
  {
  }

  /** Attempts stop at the first success or lasting failure, and at the configured number. */
  predicate LogOk(c: Config, log: Log) {
    && |log.calls| <= Attempts(c)
    && (forall k :: 0 <= k < |log.calls| - 1 ==> TransientFailure(log.calls[k]))
    && |log.waits| <= |log.calls| <= |log.waits| + 1
    && |log.waits| < Attempts(c)
    && (forall k :: 0 <= k < |log.waits| ==> TransientFailure(log.calls[k]))
    && log.waits == Plan(c, |log.waits|)
  }

  /** The answer follows from the log and from nothing else, except who cancelled. */
  predicate AnswerOk(c: Config, log: Log, answer: Answer) {
    match answer
    case Submitted(txID) =>
      && |log.calls| == |log.waits| + 1 && log.calls[|log.waits|] == Success(txID)
    case LastError(message) =>
      && |log.calls| == |log.waits| + 1
      && log.calls[|log.waits|].Failure? && log.calls[|log.waits|].message == message
      && (Retryable(message) ==> |log.calls| == Attempts(c))
    case CancelledRetrying =>
      |log.calls| == |log.waits| > 0
    case _ =>
      log == Log([], [])
  }

  lemma WaitsLimited(c: Config, waits: seq<int>)
    requires waits == Plan(c, |waits|)
    ensures waits != [] ==> waits[0] == Initial(c)
    ensures forall k :: 1 <= k < |waits| ==> waits[k] <= Limit(c)
  {
    forall k | 1 <= k < |waits|
      ensures waits[k] <= Limit(c)
    {
      BackoffBounded(c, k);
    }
  }

  /** All waiting of a submission together. */
  lemma TotalWaitBounded(c: Config, log: Log)
    requires LogOk(c, log)
    ensures Sum(log.waits) <= if Attempts(c) == 1 then 0 else Initial(c) + (Attempts(c) - 2) * Limit(c)
  {
    WaitsLimited(c, log.waits);
    if log.waits != [] {
      SumLimited(log.waits, Initial(c), Limit(c), Attempts(c));
    }
  }

  lemma SumLimited(terms: seq<int>, first: int, limit: int, n: int)
    requires terms != [] && terms[0] == first && |terms| < n && limit > 0
    requires forall k :: 1 <= k < |terms| ==> terms[k] <= limit
    ensures Sum(terms) <= first + (n - 2) * limit
  {
    SumBounded(terms, first, limit);
    Widen(|terms| - 1, n - 2, limit);
  }

  lemma Widen(a: int, b: int, limit: int)
    requires a <= b && limit > 0
    ensures a * limit <= b * limit
  {
  }

  predicate Committed(o: Outcome) {
    o.Success? || o.committed
  }

  /** The ledger took at most one of a submission's transactions. */
  ghost predicate CommittedAtMostOnce(log: Log) {
    forall i, j :: 0 <= i < j < |log.calls| ==> !(Committed(log.calls[i]) && Committed(log.calls[j]))
  }

  lemma LogGrows(c: Config, log: Log, o: Outcome)
    requires LogOk(c, log) && |log.calls| == |log.waits|
    ensures LogOk(c, Log(log.calls + [o], log.waits))
    ensures TransientFailure(o) && |log.calls| + 1 < Attempts(c)
            ==> LogOk(c, Log(log.calls + [o], log.waits + [Backoff(c, |log.waits|)]))
  {
    var calls := log.calls + [o];
    assert forall k :: 0 <= k < |log.calls| ==> calls[k] == log.calls[k];
    if TransientFailure(o) && |log.calls| + 1 < Attempts(c) {
      PlanGrows(c, |log.waits|);
      LogWaits(c, calls, log.waits, Backoff(c, |log.waits|));
    }
  }

  lemma LogWaits(c: Config, calls: seq<Outcome>, waits: seq<int>, wait: int)
    requires LogOk(c, Log(calls, waits)) && |calls| == |waits| + 1 < Attempts(c)
    requires TransientFailure(calls[|waits|]) && waits + [wait] == Plan(c, |waits| + 1)
    ensures LogOk(c, Log(calls, waits + [wait]))
  {
  }

  /** What a submission meets: whether it gets a slot, the outcome of each attempt, and whether it is
      cancelled in each wait. */
  datatype Surroundings = Surroundings(getsSlot: bool, outcome: nat -> Outcome, cancelled: nat -> bool)

  /** The calls record the surroundings, and the waits between them were not cancelled. */
  ghost predicate Recorded(calls: seq<Outcome>, s: Surroundings) {
    && (forall k :: 0 <= k < |calls| ==> calls[k] == s.outcome(k))
    && (forall k :: 0 <= k < |calls| - 1 ==> !s.cancelled(k))
  }

  /** Only the last wait can have been cancelled. */
  ghost predicate Follows(log: Log, answer: Answer, s: Surroundings) {
    Recorded(log.calls, s) && (answer == CancelledRetrying ==> |log.waits| > 0 && s.cancelled(|log.waits| - 1))
  }

  /** All waits so far ran to their end. */
  ghost predicate Matches(calls: seq<Outcome>, s: Surroundings) {
    Recorded(calls, s) && (calls != [] ==> !s.cancelled(|calls| - 1))
  }

  lemma MatchGrows(calls: seq<Outcome>, s: Surroundings)
    requires Matches(calls, s)
    ensures Recorded(calls + [s.outcome(|calls|)], s)
  {
  }

  class Client {
    const config: Config
    const capacity: nat
    var inFlight: nat
    var connected: bool

    constructor (config: Config, maxConcurrent: int)
      ensures this.config == config && capacity == Capacity(maxConcurrent) && capacity > 0
      ensures inFlight == 0 && !connected
    {
      this.config := config;
      capacity := if maxConcurrent > 0 then maxConcurrent else DEFAULT_CAPACITY;
      inFlight, connected := 0, false;
    }

    /** The slot taken is given back on every path. */
    method SubmitWithRetry(s: Surroundings) returns (answer: Answer, log: Log)
      requires s.getsSlot ==> inFlight < capacity
      modifies this`inFlight
      ensures inFlight == old(inFlight)
      ensures LogOk(config, log) && AnswerOk(config, log, answer)
      ensures Follows(log, answer, s)
      ensures answer == CancelledWaiting <==> !s.getsSlot
      ensures answer == NotConnected <==> s.getsSlot && !connected
    {
      log := Log([], []);
      if !s.getsSlot {
        return CancelledWaiting, log;
      }
      inFlight := inFlight + 1;
      if !connected {
        inFlight := inFlight - 1;
        return NotConnected, log;
      }
      answer, log := RetryLoop(s);
      inFlight := inFlight - 1;
    }

    method RetryLoop(s: Surroundings) returns (answer: Answer, log: Log)
      ensures LogOk(config, log) && AnswerOk(config, log, answer)
      ensures Follows(log, answer, s)
      ensures answer.Submitted? || answer.LastError? || answer.CancelledRetrying?
    {
      var maxAttempts := Attempts(config);
      var backoff := Initial(config);
      log := Log([], []);
      answer := CancelledRetrying;
      for attempt := 1 to maxAttempts + 1
        invariant |log.calls| == |log.waits| == attempt - 1
        invariant attempt <= maxAttempts
        invariant backoff == Backoff(config, attempt - 1)
        invariant LogOk(config, log) && Matches(log.calls, s)
      {
        var outcome := s.outcome(attempt - 1);
        LogGrows(config, log, outcome);
        MatchGrows(log.calls, s);
        log := Log(log.calls + [outcome], log.waits);
        if outcome.Success? {
          return Submitted(outcome.txID), log;
        }
        var retryable := IsRetryable(outcome.message);
        if !retryable || attempt == maxAttempts {
          return LastError(outcome.message), log;
        }
        log := Log(log.calls, log.waits + [backoff]);
        if s.cancelled(attempt - 1) {
          return CancelledRetrying, log;
        }
        backoff := Grow(config, backoff);
      }
    }
  }

  /******* Many submissions *******/

  datatype Phase =
    | WaitingForSlot
    | Calling
    | Waiting
    | Done(answer: Answer)

  datatype Caller = Caller(phase: Phase, log: Log)

  datatype System = System(taken: nat, callers: map<nat, Caller>)

  datatype Event =
    | Start(id: nat)
    | TakeSlot(id: nat, connected: bool)
    | CancelSlot(id: nat)
    | Return(id: nat, outcome: Outcome)
    | Elapse(id: nat)
    | CancelWait(id: nat)

  predicate Holds(w: Caller) {
    w.phase.Calling? || w.phase.Waiting?
  }

  /** A submission whose attempt returned: it ends, or waits before the next. */
  function Returned(c: Config, w: Caller, outcome: Outcome): Caller {
    var log := w.log.(calls := w.log.calls + [outcome]);
    if outcome.Success? then Caller(Done(Submitted(outcome.txID)), log)
    else if !Retryable(outcome.message) || |log.calls| >= Attempts(c)
    then Caller(Done(LastError(outcome.message)), log)
    else Caller(Waiting, log.(waits := log.waits + [Backoff(c, |log.waits|)]))
  }

  predicate Enabled(capacity: nat, s: System, e: Event) {
    match e
    case Start(id) => id !in s.callers
    case TakeSlot(id, _) => id in s.callers && s.callers[id].phase == WaitingForSlot && s.taken < capacity
    case CancelSlot(id) => id in s.callers && s.callers[id].phase == WaitingForSlot
    case Return(id, _) => id in s.callers && s.callers[id].phase == Calling
    case Elapse(id) => id in s.callers && s.callers[id].phase == Waiting
    case CancelWait(id) => id in s.callers && s.callers[id].phase == Waiting
  }

  /** One submission's part of a step. */
  function Moved(c: Config, w: Caller, e: Event): Caller {
    match e
    case Start(_) => Caller(WaitingForSlot, Log([], []))
    case TakeSlot(_, connected) => w.(phase := if connected then Calling else Done(NotConnected))
    case CancelSlot(_) => w.(phase := Done(CancelledWaiting))
    case Return(_, outcome) => Returned(c, w, outcome)
    case Elapse(_) => w.(phase := Calling)
    case CancelWait(_) => w.(phase := Done(CancelledRetrying))
  }

  /** A slot is taken when a submission starts to hold one and free again when it ends. */
  function Next(c: Config, capacity: nat, s: System, e: Event): System {
    if !Enabled(capacity, s, e) then s
    else
      var before := if e.id in s.callers then s.callers[e.id] else Caller(WaitingForSlot, Log([], []));
      var after := Moved(c, before, e);
      System(
        if !Holds(before) && Holds(after) then s.taken + 1
        else if Holds(before) && !Holds(after) && s.taken > 0 then s.taken - 1
        else s.taken,
        s.callers[e.id := after])
  }

  function Run(c: Config, capacity: nat, events: seq<Event>): System {
    if events == [] then System(0, map[])
    else Next(c, capacity, Run(c, capacity, events[..|events| - 1]), events[|events| - 1])
  }

  ghost function Holders(s: System): set<nat> {
    set id | id in s.callers && Holds(s.callers[id])
  }

  predicate CallerOk(c: Config, w: Caller) {
    && LogOk(c, w.log)
    && match w.phase
       case WaitingForSlot => w.log == Log([], [])
       case Calling =>
         |w.log.calls| == |w.log.waits|
       case Waiting =>
         |w.log.calls| == |w.log.waits| > 0
       case Done(answer) => AnswerOk(c, w.log, answer)
  }

  lemma MoveKeepsCaller(c: Config, w: Caller, e: Event)
    requires CallerOk(c, w)
    requires e.TakeSlot? || e.CancelSlot? ==> w.phase == WaitingForSlot
    requires e.Return? ==> w.phase == Calling
    requires e.Elapse? || e.CancelWait? ==> w.phase == Waiting
    ensures CallerOk(c, Moved(c, w, e))
  {
  }

  ghost predicate SlotsOk(capacity: nat, s: System) {
    s.taken == |Holders(s)| <= capacity
  }

  ghost predicate CallersOk(c: Config, s: System) {
    forall id :: id in s.callers ==> CallerOk(c, s.callers[id])
  }

  lemma HoldersMove(s: System, t: System, id: nat, w: Caller)
    requires t.callers == s.callers[id := w]
    ensures Holders(t) == if Holds(w) then Holders(s) + {id} else Holders(s) - {id}
  {
  }

  lemma NextKeepsSlots(c: Config, capacity: nat, s: System, e: Event)
    requires SlotsOk(capacity, s)
    ensures SlotsOk(capacity, Next(c, capacity, s, e))
  {
    if Enabled(capacity, s, e) {
      var before := if e.id in s.callers then s.callers[e.id] else Caller(WaitingForSlot, Log([], []));
      var after := Moved(c, before, e);
      HoldersMove(s, Next(c, capacity, s, e), e.id, after);
      assert Holds(before) <==> e.id in Holders(s);
      assert !Holds(before) && Holds(after) ==> e.TakeSlot?;
    }
  }

  lemma NextKeepsCallers(c: Config, capacity: nat, s: System, e: Event)
    requires CallersOk(c, s)
    ensures CallersOk(c, Next(c, capacity, s, e))
  {
    if Enabled(capacity, s, e) {
      var before := if e.id in s.callers then s.callers[e.id] else Caller(WaitingForSlot, Log([], []));
      MoveKeepsCaller(c, before, e);
      assert Next(c, capacity, s, e).callers == s.callers[e.id := Moved(c, before, e)];
    }
  }

  /** In every reachable state, whatever the interleaving, the slots taken are exactly the submissions
      calling or waiting to retry, never more than the capacity; and each submission's log keeps the
      bounds. */
  lemma {:induction false} SlotsMatchHolders(c: Config, capacity: nat, events: seq<Event>)
    ensures SlotsOk(capacity, Run(c, capacity, events)) && CallersOk(c, Run(c, capacity, events))
  {
    if events == [] {
      assert Holders(Run(c, capacity, events)) == {};
    } else {
      SlotsMatchHolders(c, capacity, events[..|events| - 1]);
      var s := Run(c, capacity, events[..|events| - 1]);
      NextKeepsSlots(c, capacity, s, events[|events| - 1]);
      NextKeepsCallers(c, capacity, s, events[|events| - 1]);
    }
  }

  /** A wait that is the earlier one times the factor, in whole nanoseconds, as far as the limit allows. */
  predicate Grown(before: int, after: int, factor: real, most: int) {
    if before as real * factor >= most as real then after == most
    else after as real <= before as real * factor < after as real + 1.0
  }

  lemma GrowIsGrown(c: Config, before: int)
    ensures Grown(before, Grow(c, before), Multiplier(c), Limit(c))
  {
    var next := before as real * Multiplier(c);
    assert Grow(c, before) == Min(next, Limit(c) as real).Floor;
  }

  /** What the configuration says of every submission of every run: how many attempts, how long the first wait,
      and each later wait from the one before, in whole nanoseconds. A setting that is 0 or less stands for one
      attempt, a tenth of a second, five seconds and a factor of 2. */
  lemma RunFollowsConfiguration(c: Config, capacity: nat, events: seq<Event>, id: nat)
    requires id in Run(c, capacity, events).callers
    ensures var log := Run(c, capacity, events).callers[id].log;
            var first := if c.initialBackoff > 0 then c.initialBackoff else 100_000_000;
            var most := if c.maxBackoff > 0 then c.maxBackoff else 5_000_000_000;
            var factor := if c.multiplier > 0.0 then c.multiplier else 2.0;
            && |log.calls| <= (if c.maxAttempts > 1 then c.maxAttempts else 1)
            && (log.waits != [] ==> log.waits[0] == first)
            && forall k :: 1 <= k < |log.waits| ==> Grown(log.waits[k - 1], log.waits[k], factor, most)
  {
    SlotsMatchHolders(c, capacity, events);
    assert CallerOk(c, Run(c, capacity, events).callers[id]);
    WaitsFollow(c, Run(c, capacity, events).callers[id].log);
  }

  lemma WaitsFollow(c: Config, log: Log)
    requires LogOk(c, log)
    ensures log.waits != [] ==> log.waits[0] == Initial(c)
    ensures forall k :: 1 <= k < |log.waits| ==> Grown(log.waits[k - 1], log.waits[k], Multiplier(c), Limit(c))
  {
    forall k | 1 <= k < |log.waits|
      ensures Grown(log.waits[k - 1], log.waits[k], Multiplier(c), Limit(c))
    {
      assert log.waits[k] == Backoff(c, k) && log.waits[k - 1] == Backoff(c, k - 1);
      GrowIsGrown(c, log.waits[k - 1]);
    }
  }

  /** A submission that gives up has met a lasting error or used all its attempts. */
  lemma GivesUpExactly(c: Config, capacity: nat, events: seq<Event>, id: nat)
    requires id in Run(c, capacity, events).callers && Run(c, capacity, events).callers[id].phase.Done?
    requires Run(c, capacity, events).callers[id].phase.answer.LastError?
    ensures var w := Run(c, capacity, events).callers[id];
            && w.log.calls != [] && w.log.calls[|w.log.calls| - 1].Failure?
            && w.log.calls[|w.log.calls| - 1].message == w.phase.answer.message
            && (Retryable(w.phase.answer.message) ==> |w.log.calls| == if c.maxAttempts > 1 then c.maxAttempts else 1)
            && forall k :: 0 <= k < |w.log.calls| - 1 ==> w.log.calls[k].Failure? && Retryable(w.log.calls[k].message)
  {
    SlotsMatchHolders(c, capacity, events);
    assert CallerOk(c, Run(c, capacity, events).callers[id]);
  }

  /** When every submission has ended, every slot is free. */
  lemma AllSlotsComeBack(c: Config, capacity: nat, events: seq<Event>)
    requires forall id :: id in Run(c, capacity, events).callers ==> Run(c, capacity, events).callers[id].phase.Done?
    ensures Run(c, capacity, events).taken == 0
  {
    SlotsMatchHolders(c, capacity, events);
    assert Holders(Run(c, capacity, events)) == {};
  }

  /** A committed attempt whose commit status is lost, and a second attempt. */
  function LostStatus(message: string): seq<Event> {
    [Start(0), TakeSlot(0, true), Return(0, Failure(message, true)), Elapse(0), Return(0, Success(""))]
  }

  lemma RunFive(c: Config, capacity: nat, a: Event, b: Event, d: Event, e: Event, f: Event)
    ensures var s := Next(c, capacity, Next(c, capacity, System(0, map[]), a), b);
            Run(c, capacity, [a, b, d, e, f])
            == Next(c, capacity, Next(c, capacity, Next(c, capacity, s, d), e), f)
  {
    assert [a, b, d, e, f][..4] == [a, b, d, e] && [a, b, d, e][..3] == [a, b, d];
    assert [a, b, d][..2] == [a, b] && [a, b][..1] == [a] && [a][..0] == [];
    assert Run(c, capacity, []) == System(0, map[]);
    assert Run(c, capacity, [a, b]) == Next(c, capacity, Next(c, capacity, System(0, map[]), a), b);
    assert Run(c, capacity, [a, b, d]) == Next(c, capacity, Run(c, capacity, [a, b]), d);
    assert Run(c, capacity, [a, b, d, e]) == Next(c, capacity, Run(c, capacity, [a, b, d]), e);
  }

  lemma LostStatusCommitsTwice(c: Config, capacity: nat, message: string)
    requires c.maxAttempts >= 2 && capacity >= 1 && Retryable(message)
    ensures var s := Run(c, capacity, LostStatus(message));
            0 in s.callers && !CommittedAtMostOnce(s.callers[0].log)
  {
    var first, second := Failure(message, true), Success("");
    RunFive(c, capacity, Start(0), TakeSlot(0, true), Return(0, first), Elapse(0), Return(0, second));
    var log := Run(c, capacity, LostStatus(message)).callers[0].log;
    assert log.calls == [first, second];
    assert Committed(log.calls[0]) && Committed(log.calls[1]);
  }

  ghost predicate NeverTwice(c: Config, capacity: nat, events: seq<Event>) {
    forall id :: id in Run(c, capacity, events).callers ==> CommittedAtMostOnce(Run(c, capacity, events).callers[id].log)
  }

  /** No submission in any run is ever committed twice if and only if the configuration allows one
      attempt only: with two, a commit status that is lost to a timeout is enough. */
  lemma CommitsOnce(c: Config, capacity: nat)
    requires capacity >= 1
    ensures (forall events :: NeverTwice(c, capacity, events)) <==> c.maxAttempts <= 1
  {
    if c.maxAttempts <= 1 {
      forall events
        ensures NeverTwice(c, capacity, events)
      {
        SlotsMatchHolders(c, capacity, events);
        forall id | id in Run(c, capacity, events).callers
          ensures CommittedAtMostOnce(Run(c, capacity, events).callers[id].log)
        {
          assert CallerOk(c, Run(c, capacity, events).callers[id]);
        }
      }
    } else {
      var message := "failed to get commit status: " + "deadline exceeded";
      EndsWith("failed to get commit status: ", "deadline exceeded");
      assert "deadline exceeded" in RETRY_PATTERNS;
      LostStatusCommitsTwice(c, capacity, message);
      assert !NeverTwice(c, capacity, LostStatus(message));
    }
  }
}
