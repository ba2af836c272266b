/** Which transfer requests reach Fabric: the idempotency check, the nonce check and the timestamp
    check of the gateway, over whole runs of requests, completions, cleanups and restarts.

    One request's admission is one atomic step, in which the handler reads the clock four times. */
module Admission {
  import opened Common
  import opened Expiring

  const NANOS_PER_MILLI := 1_000_000

  function Millis(t: int): int {
    t / NANOS_PER_MILLI
  }

  /** A validated transfer request; `body` is everything the checks do not look at. */
  datatype Request = Request(key: string, nonce: string, timestamp: int, body: string)

  /** The clock readings of one admission: at the idempotency lookup, at the nonce lookup, at the
      timestamp check and when the nonce is recorded. */
  datatype Readings = Readings(lookedUp: int, nonceSeen: int, checked: int, recorded: int)

  ghost predicate InSequence(from: int, t: Readings) {
    from <= t.lookedUp <= t.nonceSeen <= t.checked <= t.recorded
  }

  datatype Outcome<+R> = Cached(receipt: R) | NonceUsed | OutOfWindow | Admitted

  function Decide<R>(entries: map<string, Slot<R>>, nonces: map<string, int>, window: int,
                     req: Request, t: Readings): Outcome<R>
  {
    var cached := Lookup(entries, Inclusive, req.key, t.lookedUp);
    if cached.Some? then Cached(cached.value)
    else if Lookup(SlotsOf(nonces, window), Exclusive, req.nonce, t.nonceSeen).Some? then NonceUsed
    else if Millis(t.checked) - req.timestamp < 0
            || Millis(t.checked) - req.timestamp > Millis(window) then OutOfWindow
    else Admitted
  }

  /** The handler up to the submission to Fabric. */
  method Admit<R>(receipts: FileIdempotencyStore<R>, nonces: NonceStore, req: Request, t: Readings)
    returns (o: Outcome<R>)
    modifies nonces`nonces
    ensures o == Decide(receipts.entries, old(nonces.nonces), nonces.window, req, t)
    ensures nonces.nonces == if o.Admitted? then old(nonces.nonces)[req.nonce := t.recorded] else old(nonces.nonces)
  {
    var existing := receipts.Get(req.key, t.lookedUp);
    if existing.Some? {
      return Cached(existing.value);
    }
    var used := nonces.Exists(req.nonce, t.nonceSeen);
    if used {
      return NonceUsed;
    }
    var timeDiff := Millis(t.checked) - req.timestamp;
    if timeDiff < 0 || timeDiff > Millis(nonces.window) {
      return OutOfWindow;
    }
    nonces.Add(req.nonce, t.recorded, t.recorded);
    return Admitted;
  }

  /******* Runs *******/

  datatype Config = Config(ttl: int, window: int)

  /** An admitted request, which went to Fabric. The epoch counts the restarts that lost a nonce before. */
  datatype Submission = Submission(req: Request, t: Readings, epoch: nat)

  /** A receipt stored for a submission, and how many submissions there had been by then. */
  datatype Completion = Completion(index: nat, storedAt: int, submitted: nat)

  datatype Gateway<+R> = Gateway(
    entries: map<string, Slot<R>>, nonces: map<string, int>, clock: int, epoch: nat,
    log: seq<Submission>, done: seq<Completion>, answers: seq<Outcome<R>>)

  datatype Event<+R> =
    | Submit(req: Request, t: Readings)
    | Complete(index: nat, receipt: R, at: int)
    | SweepReceipts(at: int)
    | SweepNonces(at: int)
    | Restart(at: int, file: map<string, int>)

  ghost predicate Enabled<R>(g: Gateway<R>, e: Event<R>) {
    match e
    case Submit(_, t) => InSequence(g.clock, t)
    case Complete(i, _, at) => i < |g.log| && g.clock <= at
    case Restart(at, file) => g.clock <= at && WrittenBefore(g.log, file)
    case _ => g.clock <= e.at
  }

  /** A nonce file holds times at which nonces were recorded, perhaps not the latest. */
  ghost predicate WrittenBefore(log: seq<Submission>, file: map<string, int>) {
    forall k :: k in file ==> exists s :: s in log && s.req.nonce == k && s.t.recorded == file[k]
  }

  /** The file lacks nothing that still counts. */
  ghost predicate UpToDate(nonces: map<string, int>, file: map<string, int>, window: int, at: int) {
    forall k :: k in nonces && at - nonces[k] < window ==> k in file && file[k] == nonces[k]
  }

  ghost function Next<R>(c: Config, g: Gateway<R>, e: Event<R>): Gateway<R> {
    if !Enabled(g, e) then g
    else
      match e
      case Submit(req, t) =>
        var answer := Decide(g.entries, g.nonces, c.window, req, t);
        if answer.Admitted?
        then g.(nonces := g.nonces[req.nonce := t.recorded], clock := t.recorded,
                log := g.log + [Submission(req, t, g.epoch)], answers := g.answers + [answer])
        else g.(clock := t.recorded, answers := g.answers + [answer])
      case Complete(i, receipt, at) =>
        g.(entries := g.entries[g.log[i].req.key := Slot(receipt, at + c.ttl)], clock := at,
           done := g.done + [Completion(i, at, |g.log|)])
      case SweepReceipts(at) => g.(entries := Swept(g.entries, at), clock := at)
      case SweepNonces(at) => g.(nonces := NoncesKept(g.nonces, c.window, at), clock := at)
      case Restart(at, file) =>
        g.(entries := Reloaded(g.entries, Inclusive, at),
           nonces := NoncesRead(file, c.window, at), clock := at,
           epoch := if UpToDate(g.nonces, file, c.window, at) then g.epoch else g.epoch + 1)
  }

  ghost function Run<R>(c: Config, g: Gateway<R>, es: seq<Event<R>>): Gateway<R> {
    if es == [] then g else Next(c, Run(c, g, es[..|es| - 1]), es[|es| - 1])
  }

  function Fresh<R>(clock: int): Gateway<R> {
    Gateway(map[], map[], clock, 0, [], [], [])
  }

  /******* The invariant *******/

  /** A submission passed its timestamp check, and its nonce is remembered at least as long as the
      window from when it was recorded, unless a restart lost it. */
  ghost predicate SubmissionOk<R>(c: Config, g: Gateway<R>, s: Submission) {
    && InSequence(s.t.lookedUp, s.t) && s.t.recorded <= g.clock
    && 0 <= Millis(s.t.checked) - s.req.timestamp <= Millis(c.window)
    && s.epoch <= g.epoch
    && (s.epoch < g.epoch || g.clock >= s.t.recorded + c.window
        || (s.req.nonce in g.nonces && g.nonces[s.req.nonce] >= s.t.recorded))
  }

  /** A stored receipt answers for its key until its deadline. */
  ghost predicate CompletionOk<R>(c: Config, g: Gateway<R>, d: Completion) {
    && d.index < d.submitted <= |g.log|
    && g.log[d.index].t.recorded <= d.storedAt <= g.clock
    && var key := g.log[d.index].req.key;
       (g.clock > d.storedAt + c.ttl || (key in g.entries && g.entries[key].deadline >= d.storedAt + c.ttl))
  }

  /** Two submissions with one nonce lie a window apart, unless a restart between them lost a nonce. */
  ghost predicate NoncesApart(c: Config, log: seq<Submission>) {
    forall i, j :: 0 <= i < j < |log| && log[i].req.nonce == log[j].req.nonce && log[i].epoch == log[j].epoch ==>
      log[j].t.nonceSeen >= log[i].t.recorded + c.window
  }

  /** A submission with a key whose receipt was stored before comes after the receipt ran out. */
  ghost predicate KeysApart<R>(c: Config, g: Gateway<R>) {
    forall d, j :: d in g.done && d.submitted <= j < |g.log| && d.index < |g.log|
      && g.log[j].req.key == g.log[d.index].req.key
      ==> g.log[j].t.lookedUp > d.storedAt + c.ttl
  }

  ghost predicate Inv<R>(c: Config, g: Gateway<R>) {
    && (forall s :: s in g.log ==> SubmissionOk(c, g, s))
    && (forall d :: d in g.done ==> CompletionOk(c, g, d))
    && NoncesApart(c, g.log) && KeysApart(c, g)
  }

  /** Time passing, with only dead receipts forgotten, and dead nonces unless a new epoch begins, keeps the
      invariant. */
  lemma ForgettingKeepsInv<R>(c: Config, g: Gateway<R>, g': Gateway<R>)
    requires Inv(c, g) && g.clock <= g'.clock && g.epoch <= g'.epoch && g'.log == g.log && g'.done == g.done
    requires g'.epoch == g.epoch ==> forall k :: k in g.nonces ==>
               (k in g'.nonces && g'.nonces[k] == g.nonces[k]) || g'.clock >= g.nonces[k] + c.window
    requires forall k :: k in g.entries ==>
               (k in g'.entries && g'.entries[k] == g.entries[k]) || g'.clock > g.entries[k].deadline
    ensures Inv(c, g')
  {
    forall s | s in g'.log ensures SubmissionOk(c, g', s) { assert SubmissionOk(c, g, s); }
    forall d | d in g'.done ensures CompletionOk(c, g', d) { assert CompletionOk(c, g, d); }
  }

  lemma CompleteKeepsInv<R>(c: Config, g: Gateway<R>, e: Event<R>)
    requires Inv(c, g) && Enabled(g, e) && e.Complete?
    ensures Inv(c, Next(c, g, e))
  {
    var g' := Next(c, g, e);
    forall s | s in g'.log ensures SubmissionOk(c, g', s) { assert SubmissionOk(c, g, s); }
    forall d | d in g'.done
      ensures CompletionOk(c, g', d)
    {
      assert g.log[e.index] in g.log && SubmissionOk(c, g, g.log[e.index]);
      if d in g.done { assert CompletionOk(c, g, d); }
    }
  }

  /** An admission finds no live receipt and no live nonce. */
  lemma SubmitKeepsInv<R>(c: Config, g: Gateway<R>, e: Event<R>)
    requires Inv(c, g) && Enabled(g, e) && e.Submit?
    requires Decide(g.entries, g.nonces, c.window, e.req, e.t).Admitted?
    ensures Inv(c, Next(c, g, e))
  {
    var g', n := Next(c, g, e), |g.log|;
    forall s | s in g'.log
      ensures SubmissionOk(c, g', s)
    {
      if s in g.log { assert SubmissionOk(c, g, s); }
    }
    forall d | d in g'.done
      ensures CompletionOk(c, g', d)
    {
      assert CompletionOk(c, g, d) && g'.log[d.index] == g.log[d.index];
    }
    forall i, j | 0 <= i < j < |g'.log| && g'.log[i].req.nonce == g'.log[j].req.nonce
      && g'.log[i].epoch == g'.log[j].epoch
      ensures g'.log[j].t.nonceSeen >= g'.log[i].t.recorded + c.window
    {
      if j == n { assert g.log[i] in g.log && SubmissionOk(c, g, g.log[i]); }
    }
    forall d, j | d in g'.done && d.submitted <= j < |g'.log| && d.index < |g'.log|
      && g'.log[j].req.key == g'.log[d.index].req.key
      ensures g'.log[j].t.lookedUp > d.storedAt + c.ttl
    {
      assert CompletionOk(c, g, d) && g'.log[d.index] == g.log[d.index];
    }
  }

  lemma NextKeepsInv<R>(c: Config, g: Gateway<R>, e: Event<R>)
    requires Inv(c, g)
    ensures Inv(c, Next(c, g, e))
  {
    if Enabled(g, e) {
      if e.Complete? {
        CompleteKeepsInv(c, g, e);
      } else if e.Submit? && Decide(g.entries, g.nonces, c.window, e.req, e.t).Admitted? {
        SubmitKeepsInv(c, g, e);
      } else {
        ForgettingKeepsInv(c, g, Next(c, g, e));
      }
    }
  }

  lemma {:induction false} RunKeepsInv<R>(c: Config, g: Gateway<R>, es: seq<Event<R>>)
    requires Inv(c, g)
    ensures Inv(c, Run(c, g, es))
  {
    if es != [] {
      RunKeepsInv(c, g, es[..|es| - 1]);
      NextKeepsInv(c, Run(c, g, es[..|es| - 1]), es[|es| - 1]);
    }
  }

  /******* Replays *******/

  lemma MillisMonotone(a: int, b: int)
    requires a <= b
    ensures Millis(a) <= Millis(b)
  {
  }

  lemma MillisOfSum(a: int, b: int)
    requires b >= 0
    ensures Millis(a) + Millis(b) <= Millis(a + b)
  {
  }

  /** Unless a restart between loses a nonce, one nonce and timestamp can pass twice only at the two edges of
      the window: recorded in the very millisecond of the timestamp, and admitted again in the very last one.
      In between the nonce blocks it. */
  lemma NonceReplay<R>(c: Config, g0: Gateway<R>, es: seq<Event<R>>, i: nat, j: nat)
    requires c.window >= 0 && Inv(c, g0)
    requires i < j < |Run(c, g0, es).log|
    requires Run(c, g0, es).log[i].req.nonce == Run(c, g0, es).log[j].req.nonce
    requires Run(c, g0, es).log[i].req.timestamp == Run(c, g0, es).log[j].req.timestamp
    requires Run(c, g0, es).log[i].epoch == Run(c, g0, es).log[j].epoch
    ensures var a, b := Run(c, g0, es).log[i], Run(c, g0, es).log[j];
            && b.t.nonceSeen - a.t.recorded >= c.window
            && Millis(a.t.recorded) == a.req.timestamp
            && Millis(b.t.checked) == a.req.timestamp + Millis(c.window)
            && Millis(b.t.recorded) >= Millis(b.t.checked)
  {
    RunKeepsInv(c, g0, es);
    var g := Run(c, g0, es);
    var a, b := g.log[i], g.log[j];
    assert a in g.log && b in g.log && SubmissionOk(c, g, a) && SubmissionOk(c, g, b);
    MillisMonotone(a.t.checked, a.t.recorded);
    MillisOfSum(a.t.recorded, c.window);
    MillisMonotone(a.t.recorded + c.window, b.t.checked);
    MillisMonotone(b.t.checked, b.t.recorded);
  }

  /** With a window of a millisecond or more, no nonce and timestamp pass three times. */
  lemma NoThirdAdmission<R>(c: Config, g0: Gateway<R>, es: seq<Event<R>>, i: nat, j: nat, k: nat)
    requires c.window >= NANOS_PER_MILLI && Inv(c, g0)
    requires i < j < k < |Run(c, g0, es).log|
    ensures var log := Run(c, g0, es).log;
            !(&& log[i].epoch == log[j].epoch == log[k].epoch
              && log[i].req.nonce == log[j].req.nonce == log[k].req.nonce
              && log[i].req.timestamp == log[j].req.timestamp == log[k].req.timestamp)
  {
    var g := Run(c, g0, es);
    if g.log[i].epoch == g.log[j].epoch == g.log[k].epoch
       && g.log[i].req.nonce == g.log[j].req.nonce == g.log[k].req.nonce
       && g.log[i].req.timestamp == g.log[j].req.timestamp == g.log[k].req.timestamp {
      NonceReplay(c, g0, es, i, j);
      NonceReplay(c, g0, es, j, k);
    }
  }

  /** The exception is real for every window: a restart from a file written before the request lets the same
      request pass again at once. */
  lemma LostNonceReplays<R>(c: Config, req: Request)
    requires c.window > 0
    ensures var at := req.timestamp * NANOS_PER_MILLI;
            var now := Readings(at, at, at, at);
            Run<R>(c, Fresh<R>(at), [Submit(req, now), Restart(at, map[]), Submit(req, now)]).log
            == [Submission(req, now, 0), Submission(req, now, 1)]
  {
    var at := req.timestamp * NANOS_PER_MILLI;
    var now := Readings(at, at, at, at);
    var g1 := Next<R>(c, Fresh<R>(at), Submit(req, now));
    var g2 := Next<R>(c, g1, Restart(at, map[]));
    RunThree<R>(c, Fresh<R>(at), Submit(req, now), Restart(at, map[]), Submit(req, now));
    assert Millis(at) == req.timestamp;
    assert g1.nonces == map[req.nonce := at] && req.nonce in g1.nonces;
    assert g2.nonces == map[] && g2.epoch == 1;
    assert Decide(g2.entries, g2.nonces, c.window, req, now).Admitted?;
  }

  /******* Exactly once *******/

  /** The idempotency lifetime reaches past the last millisecond of the nonce window. */
  predicate Sound(c: Config) {
    c.ttl >= (Millis(c.window) + 1) * NANOS_PER_MILLI - 1
  }

  lemma MillisecondMoreIsSound(c: Config)
    requires c.ttl >= c.window + NANOS_PER_MILLI
    ensures Sound(c)
  {
  }

  /** A request has been sent to Fabric again although the receipt of an identical one was stored. */
  ghost predicate Resubmitted<R>(g: Gateway<R>) {
    exists d, j :: d in g.done && d.submitted <= j < |g.log| && d.index < |g.log|
      && g.log[j].req.key == g.log[d.index].req.key && g.log[j].req == g.log[d.index].req
  }

  /** A run from an empty gateway ends so. */
  ghost predicate ResubmitsIn<R>(c: Config, clock: int, es: seq<Event<R>>) {
    Resubmitted(Run(c, Fresh<R>(clock), es))
  }

  lemma SoundNeverResubmits<R>(c: Config, clock: int, es: seq<Event<R>>)
    requires Sound(c)
    ensures !ResubmitsIn(c, clock, es)
  {
    RunKeepsInv(c, Fresh<R>(clock), es);
    var g := Run(c, Fresh<R>(clock), es);
    forall d, j | d in g.done && d.submitted <= j < |g.log| && d.index < |g.log|
      && g.log[j].req.key == g.log[d.index].req.key
      ensures g.log[j].req != g.log[d.index].req
    {
      var a, b := g.log[d.index], g.log[j];
      assert a in g.log && b in g.log && SubmissionOk(c, g, a) && SubmissionOk(c, g, b) && CompletionOk(c, g, d);
      MillisMonotone(a.t.checked + c.ttl + 1, b.t.checked);
      MillisOfSum(a.t.checked, c.ttl + 1);
      MillisMonotone((Millis(c.window) + 1) * NANOS_PER_MILLI, c.ttl + 1);
    }
  }

  /** Submit at time zero, complete at once, and send the same again as late as the timestamp allows. */
  ghost function ReplayRun<R>(c: Config, receipt: R): seq<Event<R>> {
    var req := Request("key", "nonce", 0, "");
    var late := (Millis(c.window) + 1) * NANOS_PER_MILLI - 1;
    [Submit(req, Readings(0, 0, 0, 0)), Complete(0, receipt, 0), Submit(req, Readings(late, late, late, late))]
  }

  lemma RunThree<R>(c: Config, g: Gateway<R>, x: Event<R>, y: Event<R>, z: Event<R>)
    ensures Run(c, g, [x, y, z]) == Next(c, Next(c, Next(c, g, x), y), z)
  {
    var es := [x, y, z];
    assert es[..2] == [x, y] && [x, y][..1] == [x] && [x][..0] == [];
    assert Run(c, g, [x]) == Next(c, g, x);
    assert Run(c, g, [x, y]) == Next(c, Next(c, g, x), y);
  }

  lemma UnsoundResubmits<R>(c: Config, receipt: R)
    requires c.window >= 0 && !Sound(c)
    ensures ResubmitsIn(c, 0, ReplayRun(c, receipt))
  {
    var es := ReplayRun(c, receipt);
    var req, first, again := es[0].req, es[0].t, es[2].t;
    var g1 := Next(c, Fresh<R>(0), es[0]);
    var g2 := Next(c, g1, es[1]);
    var g3 := Next(c, g2, es[2]);
    RunThree(c, Fresh<R>(0), es[0], es[1], es[2]);
    assert g1.log == [Submission(req, first, 0)] && g1.nonces == map[req.nonce := 0] && g1.clock == 0;
    assert g2.entries == map[req.key := Slot(receipt, c.ttl)] && g2.done == [Completion(0, 0, 1)];
    assert Decide(g2.entries, g2.nonces, c.window, req, again).Admitted?;
    assert g3.log == [Submission(req, first, 0), Submission(req, again, 0)];
    assert Completion(0, 0, 1) in g3.done && g3.log[1].req == g3.log[0].req;
  }

  /** Exactly once: with the receipt of a request stored, no run ever sends an identical request to
      Fabric again, if and only if the idempotency lifetime outlasts the nonce window's last
      millisecond. */
  lemma ExactlyOnce<R(!new)>(c: Config, receipt: R)
    requires c.window >= 0
    ensures (forall clock, es: seq<Event<R>> :: !ResubmitsIn(c, clock, es)) <==> Sound(c)
  {
    if Sound(c) {
      forall clock, es: seq<Event<R>>
        ensures !ResubmitsIn(c, clock, es)
      {
        SoundNeverResubmits(c, clock, es);
      }
    } else {
      UnsoundResubmits(c, receipt);
    }
  }

  /******* What each request is answered *******/

  /** The receipt last stored under a key in a run, and when. */
  ghost function LastStored<R>(c: Config, clock: int, es: seq<Event<R>>, key: string): Option<(R, int)> {
    if es == [] then None
    else
      var init, e := es[..|es| - 1], es[|es| - 1];
      var g := Run(c, Fresh<R>(clock), init);
      if e.Complete? && Enabled(g, e) && g.log[e.index].req.key == key then Some((e.receipt, e.at))
      else LastStored(c, clock, init, key)
  }

  /** The entry of a key is the receipt last stored, or it has run out. */
  ghost predicate EntryOk<R>(c: Config, clock: int, es: seq<Event<R>>, key: string) {
    var g, stored := Run(c, Fresh<R>(clock), es), LastStored(c, clock, es, key);
    if key in g.entries
    then stored.Some? && g.entries[key] == Slot(stored.value.0, stored.value.1 + c.ttl)
    else stored.None? || g.clock > stored.value.1 + c.ttl
  }

  lemma ClockAdvances<R>(c: Config, g: Gateway<R>, e: Event<R>)
    requires e.Submit? ==> (Enabled(g, e) ==> g.clock <= e.t.recorded)
    ensures g.clock <= Next(c, g, e).clock
  {
  }

  lemma {:induction false} EntriesAreLastStored<R>(c: Config, clock: int, es: seq<Event<R>>, key: string)
    ensures EntryOk(c, clock, es, key)
  {
    if es != [] {
      var init, e := es[..|es| - 1], es[|es| - 1];
      EntriesAreLastStored(c, clock, init, key);
      ClockAdvances(c, Run(c, Fresh<R>(clock), init), e);
    }
  }

  /** Remembered nonces are of admissions, the latest of each nonce if no restart lost one. */
  lemma {:induction false} NoncesAreAdmissions<R>(c: Config, clock: int, es: seq<Event<R>>)
    ensures WrittenBefore(Run(c, Fresh<R>(clock), es).log, Run(c, Fresh<R>(clock), es).nonces)
  {
    if es != [] {
      var init, e := es[..|es| - 1], es[|es| - 1];
      var g := Run(c, Fresh<R>(clock), init);
      NoncesAreAdmissions(c, clock, init);
      StepKeepsWritten(c, g, e);
    }
  }

  lemma StepKeepsWritten<R>(c: Config, g: Gateway<R>, e: Event<R>)
    requires WrittenBefore(g.log, g.nonces)
    ensures WrittenBefore(Next(c, g, e).log, Next(c, g, e).nonces)
  {
    var g' := Next(c, g, e);
    if e.Submit? && g'.log != g.log {
      assert g'.log[|g.log|] in g'.log;
      forall k | k in g'.nonces
        ensures exists s :: s in g'.log && s.req.nonce == k && s.t.recorded == g'.nonces[k]
      {
        if k == e.req.nonce {
          assert g'.log[|g.log|].req.nonce == k;
        } else {
          var s :| s in g.log && s.req.nonce == k && s.t.recorded == g.nonces[k];
          assert s in g'.log;
        }
      }
    }
  }

  /** A receipt under this key is still good when the request is looked up. */
  ghost predicate ReceiptLives<R>(c: Config, clock: int, es: seq<Event<R>>, key: string, at: int) {
    var stored := LastStored(c, clock, es, key);
    stored.Some? && at <= stored.value.1 + c.ttl
  }

  /** An admission recorded this nonce less than the window before. */
  ghost predicate RecentlyUsed(c: Config, s: Submission, nonce: string, at: int) {
    s.req.nonce == nonce && at - s.t.recorded < c.window
  }

  lemma AnswerAppended<R>(c: Config, g: Gateway<R>, req: Request, t: Readings, answer: Outcome<R>)
    requires InSequence(g.clock, t)
    ensures Next(c, g, Submit(req, t)).answers == g.answers + [answer]
            <==> Decide(g.entries, g.nonces, c.window, req, t) == answer
  {
    var d := Decide(g.entries, g.nonces, c.window, req, t);
    assert Next(c, g, Submit(req, t)).answers == g.answers + [d];
    assert (g.answers + [d])[|g.answers|] == d && (g.answers + [answer])[|g.answers|] == answer;
  }

  lemma NonceKnown(nonces: map<string, int>, window: int, nonce: string, at: int)
    ensures Lookup(SlotsOf(nonces, window), Exclusive, nonce, at).Some?
            <==> nonce in nonces && at - nonces[nonce] < window
  {
  }

  lemma NoLiveEntry<R>(c: Config, clock: int, es: seq<Event<R>>, key: string, at: int)
    requires Run(c, Fresh<R>(clock), es).clock <= at && !ReceiptLives(c, clock, es, key, at)
    ensures Lookup(Run(c, Fresh<R>(clock), es).entries, Inclusive, key, at).None?
  {
    EntriesAreLastStored(c, clock, es, key);
  }

  /** A known nonce was recorded by an admission. */
  lemma KnownWasAdmitted<R>(c: Config, clock: int, es: seq<Event<R>>, nonce: string, at: int)
    requires nonce in Run(c, Fresh<R>(clock), es).nonces && at - Run(c, Fresh<R>(clock), es).nonces[nonce] < c.window
    ensures exists s :: s in Run(c, Fresh<R>(clock), es).log && RecentlyUsed(c, s, nonce, at)
  {
    var g := Run(c, Fresh<R>(clock), es);
    NoncesAreAdmissions(c, clock, es);
    var s :| s in g.log && s.req.nonce == nonce && s.t.recorded == g.nonces[nonce];
    assert RecentlyUsed(c, s, nonce, at);
  }

  lemma RecentIsKnown<R>(c: Config, clock: int, es: seq<Event<R>>, s: Submission, nonce: string, at: int)
    requires var g := Run(c, Fresh<R>(clock), es);
             s in g.log && RecentlyUsed(c, s, nonce, at) && s.epoch == g.epoch && g.clock <= at
    ensures var g := Run(c, Fresh<R>(clock), es);
            nonce in g.nonces && at - g.nonces[nonce] < c.window
  {
    RunKeepsInv(c, Fresh<R>(clock), es);
    assert SubmissionOk(c, Run(c, Fresh<R>(clock), es), s);
  }

  /** A repeated request gets its receipt: whatever its nonce and timestamp, and whatever was swept or
      restarted in between, within the lifetime the answer is the receipt last stored under its key. */
  lemma RepeatGetsReceipt<R>(c: Config, clock: int, es: seq<Event<R>>, req: Request, t: Readings)
    requires InSequence(Run(c, Fresh<R>(clock), es).clock, t)
    requires ReceiptLives(c, clock, es, req.key, t.lookedUp)
    ensures var g := Run(c, Fresh<R>(clock), es);
            Next(c, g, Submit(req, t)).answers == g.answers + [Cached(LastStored(c, clock, es, req.key).value.0)]
  {
    EntriesAreLastStored(c, clock, es, req.key);
  }

  /** Without such a receipt a nonce that was used less than the window before is refused, as long as no restart
      since lost nonces; and none is refused otherwise. */
  lemma UsedNonceRefused<R>(c: Config, clock: int, es: seq<Event<R>>, req: Request, t: Readings)
    requires InSequence(Run(c, Fresh<R>(clock), es).clock, t)
    requires !ReceiptLives(c, clock, es, req.key, t.lookedUp)
    ensures var g := Run(c, Fresh<R>(clock), es);
            var answers := Next(c, g, Submit(req, t)).answers;
            && ((exists s :: s in g.log && RecentlyUsed(c, s, req.nonce, t.nonceSeen) && s.epoch == g.epoch)
                ==> answers == g.answers + [NonceUsed])
            && (answers == g.answers + [NonceUsed]
                ==> exists s :: s in g.log && RecentlyUsed(c, s, req.nonce, t.nonceSeen))
  {
    var g := Run(c, Fresh<R>(clock), es);
    NoLiveEntry(c, clock, es, req.key, t.lookedUp);
    NonceKnown(g.nonces, c.window, req.nonce, t.nonceSeen);
    AnswerAppended(c, g, req, t, NonceUsed);
    if s :| s in g.log && RecentlyUsed(c, s, req.nonce, t.nonceSeen) && s.epoch == g.epoch {
      RecentIsKnown(c, clock, es, s, req.nonce, t.nonceSeen);
    }
    if req.nonce in g.nonces && t.nonceSeen - g.nonces[req.nonce] < c.window {
      KnownWasAdmitted(c, clock, es, req.nonce, t.nonceSeen);
    }
  }

  /** With neither, a request is admitted exactly if its timestamp is in the window, to the millisecond at both
      ends, and refused as out of it otherwise. */
  lemma FreshRequestAdmitted<R>(c: Config, clock: int, es: seq<Event<R>>, req: Request, t: Readings)
    requires InSequence(Run(c, Fresh<R>(clock), es).clock, t)
    requires !ReceiptLives(c, clock, es, req.key, t.lookedUp)
    requires forall s :: s in Run(c, Fresh<R>(clock), es).log ==> !RecentlyUsed(c, s, req.nonce, t.nonceSeen)
    ensures var g := Run(c, Fresh<R>(clock), es);
            var g' := Next(c, g, Submit(req, t));
            var inWindow := 0 <= t.checked / 1_000_000 - req.timestamp <= c.window / 1_000_000;
            && g'.answers == g.answers + [if inWindow then Admitted else OutOfWindow]
            && g'.log == g.log + if inWindow then [Submission(req, t, g.epoch)] else []
  {
    var g := Run(c, Fresh<R>(clock), es);
    NoLiveEntry(c, clock, es, req.key, t.lookedUp);
    NonceKnown(g.nonces, c.window, req.nonce, t.nonceSeen);
    if req.nonce in g.nonces && t.nonceSeen - g.nonces[req.nonce] < c.window {
      KnownWasAdmitted(c, clock, es, req.nonce, t.nonceSeen);
    }
  }
}
