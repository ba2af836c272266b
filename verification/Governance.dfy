/** The governance chaincode: on-chain voting on the admission of organisations.

    A transaction reads the committed ledger, collects writes, and its writes are
    committed only if it returns no error. `Apply` gives the ledger a successful
    transaction leaves; `Step` adds that a failed one leaves the ledger alone. */
module Governance {
  import opened Common

  datatype Status = Pending | Approved | Rejected | Expired

  datatype Decision = Approve | Reject

  /** What a transaction knows about itself: Fabric's transaction ID, the client's MSP and the
      transaction timestamp. */
  datatype Tx = Tx(txID: string, clientMSP: string, seconds: int, nanos: int)

  /** Ledger timestamps are RFC 3339 strings without fractions; the model keeps their seconds. */
  datatype JoinRequest = JoinRequest(
    requestID: string, orgName: string, mspID: string, domain: string, description: string,
    anchorHost: string, anchorPort: int,
    status: Status, approvals: map<string, int>, rejections: map<string, int>,
    requiredAck: int, totalOrgs: int,
    createdAt: int, updatedAt: int, resolvedAt: Option<int>, creatorMSP: string)

  datatype VoteRecord = VoteRecord(
    requestID: string, voterMSP: string, decision: Decision, reason: string, timestamp: int)

  datatype Policy = Policy(
    policyType: string, thresholdPct: int, expiryHours: int, updatedAt: int, updatedByMSP: string)

  datatype OrgEntry = OrgEntry(mspID: string, name: string, domain: string, registeredAt: int)

  datatype Org = Org(mspID: string, name: string, domain: string)

  datatype Ledger = Ledger(
    requests: map<string, JoinRequest>,
    votes: map<(string, string), VoteRecord>,
    orgs: map<string, OrgEntry>,
    policy: Option<Policy>)

  datatype Error =
    | MissingField | BadPort | PendingExists
    | NotFound | NotPending | RequestExpired | OwnRequest | DuplicateVote
    | BadPolicyType | BadThreshold | BadExpiry

  const DEFAULT_POLICY_TYPE := "MAJORITY"
  const DEFAULT_THRESHOLD := 51
  const DEFAULT_EXPIRY_HOURS := 168

  const NANOS_PER_SECOND := 1_000_000_000
  const NANOS_PER_HOUR := 3_600_000_000_000

  /******* Transactions *******/

  datatype Op =
    | InitLedger
    | RequestJoin(orgName: string, mspID: string, domain: string,
                  anchorHost: string, anchorPort: int, description: string)
    | CastVote(requestID: string, decision: Decision, reason: string)
    | UpdatePolicy(policyType: string, thresholdPct: int, expiryHours: int)
    | RegisterOrgs(entries: seq<Org>)

  function ExpiryHours(l: Ledger): int {
    if l.policy.Some? then l.policy.value.expiryHours else DEFAULT_EXPIRY_HOURS
  }

  /** The hours become a 64-bit nanosecond duration before they are added. */
  predicate IsExpired(createdAt: int, expiryHours: int, tx: Tx) {
    tx.seconds * NANOS_PER_SECOND + tx.nanos
    > createdAt * NANOS_PER_SECOND + WrapInt64(expiryHours * NANOS_PER_HOUR)
  }

  predicate HasPending(requests: map<string, JoinRequest>, mspID: string) {
    exists id :: id in requests && requests[id].mspID == mspID && requests[id].status == Pending
  }

  function NewRequest(l: Ledger, tx: Tx, op: Op): JoinRequest
    requires op.RequestJoin?
  {
    JoinRequest(tx.txID, op.orgName, op.mspID, op.domain, op.description,
                op.anchorHost, op.anchorPort,
                Pending, map[], map[],
                |l.orgs| / 2 + 1, |l.orgs|,
                tx.seconds, tx.seconds, None, tx.clientMSP)
  }

  function Register(orgs: map<string, OrgEntry>, org: Org, now: int): map<string, OrgEntry> {
    orgs[org.mspID := OrgEntry(org.mspID, org.name, org.domain, now)]
  }

  function RegisterAll(orgs: map<string, OrgEntry>, entries: seq<Org>, now: int): map<string, OrgEntry> {
    if entries == [] then orgs
    else Register(RegisterAll(orgs, entries[..|entries| - 1], now), entries[|entries| - 1], now)
  }

  /** The request with one more vote in it, before the outcome is evaluated. */
  function Counted(r: JoinRequest, voter: string, d: Decision, now: int): JoinRequest {
    if d.Approve?
    then r.(approvals := r.approvals[voter := now], updatedAt := now)
    else r.(rejections := r.rejections[voter := now], updatedAt := now)
  }

  predicate ReachesApproval(r: JoinRequest) {
    |r.approvals| >= r.requiredAck
  }

  predicate BlocksApproval(r: JoinRequest) {
    r.totalOrgs - |r.rejections| < r.requiredAck
  }

  /** Both tests are made, the rejecting one last. */
  function Evaluated(r: JoinRequest, now: int): JoinRequest {
    if BlocksApproval(r) then r.(status := Rejected, resolvedAt := Some(now))
    else if ReachesApproval(r) then r.(status := Approved, resolvedAt := Some(now))
    else r
  }

  function VoteError(l: Ledger, tx: Tx, requestID: string): Option<Error> {
    if requestID !in l.requests then Some(NotFound)
    else
      var r := l.requests[requestID];
      if r.status != Pending then Some(NotPending)
      else if IsExpired(r.createdAt, ExpiryHours(l), tx) then Some(RequestExpired)
      else if tx.clientMSP == r.mspID then Some(OwnRequest)
      else if tx.clientMSP in r.approvals || tx.clientMSP in r.rejections then Some(DuplicateVote)
      else None
  }

  function AfterVote(l: Ledger, tx: Tx, id: string, d: Decision, reason: string): Ledger
    requires id in l.requests
  {
    var counted := Counted(l.requests[id], tx.clientMSP, d, tx.seconds);
    Ledger(
      l.requests[id := Evaluated(counted, tx.seconds)],
      l.votes[(id, tx.clientMSP) := VoteRecord(id, tx.clientMSP, d, reason, tx.seconds)],
      if ReachesApproval(counted)
      then Register(l.orgs, Org(counted.mspID, counted.orgName, counted.domain), tx.seconds)
      else l.orgs,
      l.policy)
  }

  function Apply(l: Ledger, tx: Tx, op: Op): Result<Ledger, Error> {
    match op
    case InitLedger =>
      if l.policy.Some? then Ok(l)
      else Ok(l.(policy := Some(Policy(DEFAULT_POLICY_TYPE, DEFAULT_THRESHOLD, DEFAULT_EXPIRY_HOURS,
                                       tx.seconds, tx.clientMSP))))
    case RequestJoin(orgName, mspID, domain, _, anchorPort, _) =>
      if orgName == "" || mspID == "" || domain == "" then Err(MissingField)
      else if anchorPort <= 0 || anchorPort > 65535 then Err(BadPort)
      else if HasPending(l.requests, mspID) then Err(PendingExists)
      else Ok(l.(requests := l.requests[tx.txID := NewRequest(l, tx, op)]))
    case CastVote(id, d, reason) =>
      var e := VoteError(l, tx, id);
      if e.Some? then Err(e.value) else Ok(AfterVote(l, tx, id, d, reason))
    case UpdatePolicy(t, pct, hours) =>
      if t != "MAJORITY" && t != "UNANIMOUS" && t != "THRESHOLD" then Err(BadPolicyType)
      else if pct < 1 || pct > 100 then Err(BadThreshold)
      else if hours < 1 then Err(BadExpiry)
      else Ok(l.(policy := Some(Policy(t, pct, hours, tx.seconds, tx.clientMSP))))
    case RegisterOrgs(entries) =>
      Ok(l.(orgs := RegisterAll(l.orgs, entries, tx.seconds)))
  }

  function Step(l: Ledger, tx: Tx, op: Op): Ledger {
    var r := Apply(l, tx, op);
    if r.Ok? then r.value else l
  }

  const EMPTY := Ledger(map[], map[], map[], None)

  /** A run is a sequence of submitted transactions. */
  datatype Call = Call(tx: Tx, op: Op)

  function Run(l: Ledger, calls: seq<Call>): Ledger {
    if calls == [] then l
    else
      var last := calls[|calls| - 1];
      Step(Run(l, calls[..|calls| - 1]), last.tx, last.op)
  }

  /** Fabric gives every transaction its own ID, so a new request never finds its ID taken. */
  ghost predicate FreshIDs(l: Ledger, calls: seq<Call>) {
    && (forall i :: 0 <= i < |calls| && calls[i].op.RequestJoin? ==> calls[i].tx.txID !in l.requests)
    && (forall i, j :: 0 <= i < j < |calls| && calls[i].op.RequestJoin? && calls[j].op.RequestJoin?
          ==> calls[i].tx.txID != calls[j].tx.txID)
  }

  lemma FreshPrefix(l: Ledger, calls: seq<Call>)
    requires FreshIDs(l, calls) && calls != []
    ensures FreshIDs(l, calls[..|calls| - 1])
  {
  }

  /** Only a join request adds a request, under its own transaction ID. */
  lemma {:induction false} FreshAtEnd(l: Ledger, calls: seq<Call>, id: string)
    requires id !in l.requests
    requires forall i :: 0 <= i < |calls| && calls[i].op.RequestJoin? ==> calls[i].tx.txID != id
    ensures id !in Run(l, calls).requests
  {
    if calls != [] {
      FreshAtEnd(l, calls[..|calls| - 1], id);
    }
  }

  /******* The ledger invariant *******/

  ghost predicate TallyOk(r: JoinRequest) {
    var a, n, k := |r.approvals|, |r.rejections|, r.totalOrgs - r.requiredAck;
    match r.status
    case Pending => (a < r.requiredAck && n <= k) || (r.totalOrgs == 0 && a == 0 && n == 0)
    case Approved => r.totalOrgs >= 1 && a == r.requiredAck && n <= k
    case Rejected => if r.totalOrgs >= 1 then a < r.requiredAck && n == k + 1 else a + n == 1
    case Expired => false
  }

  ghost predicate RequestOk(id: string, r: JoinRequest) {
    && r.requestID == id
    && r.totalOrgs >= 0 && r.requiredAck == r.totalOrgs / 2 + 1
    && r.approvals.Keys !! r.rejections.Keys
    && r.mspID !in r.approvals && r.mspID !in r.rejections
    && (r.status == Pending <==> r.resolvedAt == None)
    && TallyOk(r)
  }

  predicate HasVoted(r: JoinRequest, voter: string) {
    voter in r.approvals || voter in r.rejections
  }

  /** A vote record and the request's tallies tell the same story. */
  ghost predicate RecordMatches(r: JoinRequest, v: VoteRecord) {
    match v.decision
    case Approve => v.voterMSP in r.approvals && r.approvals[v.voterMSP] == v.timestamp
    case Reject => v.voterMSP in r.rejections && r.rejections[v.voterMSP] == v.timestamp
  }

  ghost predicate RecordOk(l: Ledger, k: (string, string))
    requires k in l.votes
  {
    && k == (l.votes[k].requestID, l.votes[k].voterMSP)
    && k.0 in l.requests
    && RecordMatches(l.requests[k.0], l.votes[k])
  }

  /** Vote records and tallies agree, in both directions. */
  ghost predicate RecordsAgree(l: Ledger) {
    && (forall k :: k in l.votes ==> RecordOk(l, k))
    && (forall id, v :: id in l.requests && HasVoted(l.requests[id], v) ==> (id, v) in l.votes)
  }

  ghost predicate OnePendingPerMSP(l: Ledger) {
    forall i, j :: i in l.requests && j in l.requests && i != j
      && l.requests[i].status == Pending && l.requests[j].status == Pending
      ==> l.requests[i].mspID != l.requests[j].mspID
  }

  ghost predicate Inv(l: Ledger) {
    && (forall id :: id in l.requests ==> RequestOk(id, l.requests[id]))
    && RecordsAgree(l)
    && OnePendingPerMSP(l)
  }

  /** A vote on a well-tallied pending request leaves a well-tallied request. */
  lemma VoteKeepsTally(id: string, r: JoinRequest, voter: string, d: Decision, now: int)
    requires RequestOk(id, r) && r.status == Pending
    requires voter != r.mspID && voter !in r.approvals && voter !in r.rejections
    ensures RequestOk(id, Evaluated(Counted(r, voter, d, now), now))
  {
    assert |r.approvals[voter := now]| == |r.approvals| + 1;
    assert |r.rejections[voter := now]| == |r.rejections| + 1;
  }

  lemma VoteKeepsRecords(l: Ledger, tx: Tx, id: string, d: Decision, reason: string)
    requires RecordsAgree(l) && id in l.requests && !HasVoted(l.requests[id], tx.clientMSP)
    ensures RecordsAgree(AfterVote(l, tx, id, d, reason))
  {
    var l' := AfterVote(l, tx, id, d, reason);
    var key := (id, tx.clientMSP);
    forall k | k in l'.votes
      ensures RecordOk(l', k)
    {
      if k != key {
        assert RecordOk(l, k);
      }
    }
    forall i, v | i in l'.requests && HasVoted(l'.requests[i], v)
      ensures (i, v) in l'.votes
    {
      if (i, v) != key {
        assert HasVoted(l.requests[i], v);
      }
    }
  }

  lemma JoinKeepsRecords(l: Ledger, tx: Tx, op: Op)
    requires RecordsAgree(l) && op.RequestJoin? && Apply(l, tx, op).Ok? && tx.txID !in l.requests
    ensures RecordsAgree(Step(l, tx, op))
  {
    var l' := Step(l, tx, op);
    forall k | k in l'.votes
      ensures RecordOk(l', k)
    {
      assert RecordOk(l, k);
    }
    forall id, v | id in l'.requests && HasVoted(l'.requests[id], v)
      ensures (id, v) in l'.votes
    {
      assert id != tx.txID;
    }
  }

  lemma VoteKeepsInv(l: Ledger, tx: Tx, id: string, d: Decision, reason: string)
    requires Inv(l) && VoteError(l, tx, id) == None
    ensures Inv(AfterVote(l, tx, id, d, reason))
  {
    VoteKeepsTally(id, l.requests[id], tx.clientMSP, d, tx.seconds);
    VoteKeepsRecords(l, tx, id, d, reason);
  }

  lemma JoinKeepsInv(l: Ledger, tx: Tx, op: Op)
    requires Inv(l) && op.RequestJoin? && Apply(l, tx, op).Ok? && tx.txID !in l.requests
    ensures Inv(Step(l, tx, op))
  {
    JoinKeepsRecords(l, tx, op);
    JoinKeepsOnePending(l, tx, op);
    assert RequestOk(tx.txID, NewRequest(l, tx, op));
    assert Step(l, tx, op).requests == l.requests[tx.txID := NewRequest(l, tx, op)];
  }

  lemma JoinKeepsOnePending(l: Ledger, tx: Tx, op: Op)
    requires OnePendingPerMSP(l) && op.RequestJoin? && Apply(l, tx, op).Ok?
    ensures OnePendingPerMSP(Step(l, tx, op))
  {
  }

  lemma StepKeepsInv(l: Ledger, tx: Tx, op: Op)
    requires Inv(l)
    requires op.RequestJoin? ==> tx.txID !in l.requests
    ensures Inv(Step(l, tx, op))
  {
    if Apply(l, tx, op).Ok? {
      if op.RequestJoin? {
        JoinKeepsInv(l, tx, op);
      } else if op.CastVote? {
        VoteKeepsInv(l, tx, op.requestID, op.decision, op.reason);
      } else {
        var l' := Step(l, tx, op);
        forall k | k in l'.votes ensures RecordOk(l', k) { assert RecordOk(l, k); }
      }
    }
  }

  /** The ledger invariant holds after every run. */
  lemma {:induction false} RunKeepsInv(l: Ledger, calls: seq<Call>)
    requires Inv(l) && FreshIDs(l, calls)
    ensures Inv(Run(l, calls))
  {
    if calls != [] {
      var last := calls[|calls| - 1];
      FreshPrefix(l, calls);
      RunKeepsInv(l, calls[..|calls| - 1]);
      if last.op.RequestJoin? {
        FreshAtEnd(l, calls[..|calls| - 1], last.tx.txID);
      }
      StepKeepsInv(Run(l, calls[..|calls| - 1]), last.tx, last.op);
    }
  }

  /** From the empty ledger on, in particular. */
  lemma {:induction false} LedgerInvariant(calls: seq<Call>)
    requires FreshIDs(EMPTY, calls)
    ensures Inv(Run(EMPTY, calls))
  {
    RunKeepsInv(EMPTY, calls);
  }

  /******* What no run can change *******/

  ghost predicate MapGrows<K, V>(m: map<K, V>, m': map<K, V>) {
    forall k :: k in m ==> k in m' && m'[k] == m[k]
  }

  /** The terms of a vote are fixed when it is asked for, votes are never withdrawn, and a resolved
      request never changes again. */
  ghost predicate RequestEvolves(r: JoinRequest, r': JoinRequest) {
    && r' == r.(status := r'.status, approvals := r'.approvals, rejections := r'.rejections,
                updatedAt := r'.updatedAt, resolvedAt := r'.resolvedAt)
    && MapGrows(r.approvals, r'.approvals) && MapGrows(r.rejections, r'.rejections)
    && (r.status != Pending ==> r' == r)
  }

  ghost predicate Evolves(l: Ledger, l': Ledger) {
    && (forall id :: id in l.requests ==> id in l'.requests && RequestEvolves(l.requests[id], l'.requests[id]))
    && MapGrows(l.votes, l'.votes)
    && l.orgs.Keys <= l'.orgs.Keys
  }

  lemma {:induction false} RegisterAllKeys(orgs: map<string, OrgEntry>, entries: seq<Org>, now: int)
    ensures RegisterAll(orgs, entries, now).Keys == orgs.Keys + set e | e in entries :: e.mspID
  {
    if entries != [] {
      var init, last := entries[..|entries| - 1], entries[|entries| - 1];
      RegisterAllKeys(orgs, init, now);
      assert entries == init + [last];
      assert (set e | e in entries :: e.mspID) == (set e | e in init :: e.mspID) + {last.mspID};
    }
  }

  /** Of several entries for an organisation the last one is kept; the others in the registry stay as they were. */
  lemma {:induction false} RegisterAllLast(orgs: map<string, OrgEntry>, entries: seq<Org>, now: int, i: nat)
    requires i < |entries| && forall j :: i < j < |entries| ==> entries[j].mspID != entries[i].mspID
    ensures var e, r := entries[i], RegisterAll(orgs, entries, now);
            e.mspID in r && r[e.mspID] == OrgEntry(e.mspID, e.name, e.domain, now)
  {
    if i < |entries| - 1 { RegisterAllLast(orgs, entries[..|entries| - 1], now, i); }
  }

  lemma {:induction false} RegisterAllOthers(orgs: map<string, OrgEntry>, entries: seq<Org>, now: int, mspID: string)
    requires mspID in orgs && forall e :: e in entries ==> e.mspID != mspID
    ensures mspID in RegisterAll(orgs, entries, now) && RegisterAll(orgs, entries, now)[mspID] == orgs[mspID]
  {
    if entries != [] {
      assert entries[|entries| - 1] in entries;
      RegisterAllOthers(orgs, entries[..|entries| - 1], now, mspID);
    }
  }

  lemma VoteIsNew(l: Ledger, tx: Tx, id: string)
    requires RecordsAgree(l) && VoteError(l, tx, id) == None
    ensures (id, tx.clientMSP) !in l.votes
  {
    assert (id, tx.clientMSP) in l.votes ==> RecordOk(l, (id, tx.clientMSP));
  }

  lemma VoteEvolves(l: Ledger, tx: Tx, id: string, d: Decision, reason: string)
    requires VoteError(l, tx, id) == None && (id, tx.clientMSP) !in l.votes
    ensures Evolves(l, AfterVote(l, tx, id, d, reason))
  {
    assert RequestEvolves(l.requests[id], AfterVote(l, tx, id, d, reason).requests[id]);
  }

  lemma StepEvolves(l: Ledger, tx: Tx, op: Op)
    requires RecordsAgree(l)
    requires op.RequestJoin? ==> tx.txID !in l.requests
    ensures Evolves(l, Step(l, tx, op))
  {
    if Apply(l, tx, op).Ok? {
      if op.RegisterOrgs? {
        RegisterAllKeys(l.orgs, op.entries, tx.seconds);
      } else if op.CastVote? {
        VoteIsNew(l, tx, op.requestID);
        VoteEvolves(l, tx, op.requestID, op.decision, op.reason);
      }
    }
  }

  lemma EvolvesTransitive(a: Ledger, b: Ledger, c: Ledger)
    requires Evolves(a, b) && Evolves(b, c)
    ensures Evolves(a, c)
  {
    forall id | id in a.requests ensures id in c.requests && RequestEvolves(a.requests[id], c.requests[id]) {
      assert RequestEvolves(a.requests[id], b.requests[id]);
      assert RequestEvolves(b.requests[id], c.requests[id]);
    }
  }

  /** Over any run: no request, vote record or organisation disappears, every request keeps its
      threshold, and a resolved request is frozen. */
  lemma {:induction false} RunEvolves(l: Ledger, calls: seq<Call>)
    requires Inv(l) && FreshIDs(l, calls)
    ensures Evolves(l, Run(l, calls))
  {
    if calls != [] {
      var init, last := calls[..|calls| - 1], calls[|calls| - 1];
      FreshPrefix(l, calls);
      RunEvolves(l, init);
      RunKeepsInv(l, init);
      if last.op.RequestJoin? { FreshAtEnd(l, init, last.tx.txID); }
      StepEvolves(Run(l, init), last.tx, last.op);
      EvolvesTransitive(l, Run(l, init), Run(l, calls));
    }
  }

  /******* Where organisations come from *******/

  ghost function ApprovedMSPs(requests: map<string, JoinRequest>): set<string> {
    set id | id in requests && requests[id].status == Approved :: requests[id].mspID
  }

  /** The founders after one transaction, and after a run: those before it and those it registers
      by hand. */
  ghost function FoundersAfterStep(founders: set<string>, op: Op): set<string> {
    if op.RegisterOrgs? then founders + set e | e in op.entries :: e.mspID else founders
  }

  ghost function FoundersAfter(founders: set<string>, calls: seq<Call>): set<string> {
    if calls == [] then founders
    else FoundersAfterStep(FoundersAfter(founders, calls[..|calls| - 1]), calls[|calls| - 1].op)
  }

  /** The registry holds the founders, the organisations voted in, and nothing else. */
  ghost predicate Provenance(l: Ledger, founders: set<string>) {
    && l.orgs.Keys == founders + ApprovedMSPs(l.requests)
    && forall id :: id in l.requests ==> l.requests[id].totalOrgs >= 1
  }

  lemma ApprovedAfterUpdate(m: map<string, JoinRequest>, id: string, r: JoinRequest)
    requires id in m ==> m[id].status != Approved
    ensures ApprovedMSPs(m[id := r]) == ApprovedMSPs(m) + if r.status == Approved then {r.mspID} else {}
  {
    var m' := m[id := r];
    forall p | p in ApprovedMSPs(m) ensures p in ApprovedMSPs(m') {
      var i :| i in m && m[i].status == Approved && m[i].mspID == p;
      assert m'[i].status == Approved;
    }
    forall p | p in ApprovedMSPs(m') ensures p in ApprovedMSPs(m) || (r.status == Approved && p == r.mspID) {
      var i :| i in m' && m'[i].status == Approved && m'[i].mspID == p;
      if i != id { assert m[i].status == Approved; }
    }
    if r.status == Approved { assert m'[id].status == Approved; }
  }

  /** One request changes, and its organisation is registered if that approves it. */
  lemma UpdateKeepsProvenance(l: Ledger, l': Ledger, id: string, r: JoinRequest, founders: set<string>)
    requires Provenance(l, founders) && r.totalOrgs >= 1
    requires id in l.requests ==> l.requests[id].status != Approved
    requires l'.requests == l.requests[id := r]
    requires l'.orgs.Keys == l.orgs.Keys + if r.status == Approved then {r.mspID} else {}
    ensures Provenance(l', founders)
  {
    ApprovedAfterUpdate(l.requests, id, r);
  }

  lemma VoteKeepsProvenance(l: Ledger, tx: Tx, id: string, d: Decision, reason: string, founders: set<string>)
    requires VoteError(l, tx, id) == None && RequestOk(id, l.requests[id]) && Provenance(l, founders)
    ensures Provenance(AfterVote(l, tx, id, d, reason), founders)
  {
    var l' := AfterVote(l, tx, id, d, reason);
    VoteKeepsTally(id, l.requests[id], tx.clientMSP, d, tx.seconds);
    UpdateKeepsProvenance(l, l', id, l'.requests[id], founders);
  }

  lemma JoinKeepsProvenance(l: Ledger, tx: Tx, op: Op, founders: set<string>)
    requires op.RequestJoin? && tx.txID !in l.requests
    requires |l.orgs| >= 1 && Provenance(l, founders)
    ensures Provenance(Step(l, tx, op), founders)
  {
    if Apply(l, tx, op).Ok? {
      UpdateKeepsProvenance(l, Step(l, tx, op), tx.txID, NewRequest(l, tx, op), founders);
    }
  }

  lemma RegisterKeepsProvenance(l: Ledger, tx: Tx, op: Op, founders: set<string>)
    requires op.RegisterOrgs? && Provenance(l, founders)
    ensures Provenance(Step(l, tx, op), FoundersAfterStep(founders, op))
  {
    RegisterAllKeys(l.orgs, op.entries, tx.seconds);
  }

  lemma VoteStepKeepsProvenance(l: Ledger, tx: Tx, id: string, d: Decision, reason: string, founders: set<string>)
    requires id in l.requests ==> RequestOk(id, l.requests[id])
    requires Provenance(l, founders)
    ensures Provenance(Step(l, tx, CastVote(id, d, reason)), founders)
  {
    if VoteError(l, tx, id) == None { VoteKeepsProvenance(l, tx, id, d, reason, founders); }
  }

  lemma PolicyKeepsProvenance(l: Ledger, l': Ledger, founders: set<string>)
    requires Provenance(l, founders) && l' == l.(policy := l'.policy)
    ensures Provenance(l', founders)
  {
  }

  lemma StepKeepsProvenance(l: Ledger, tx: Tx, op: Op, founders: set<string>)
    requires op.CastVote? && op.requestID in l.requests ==> RequestOk(op.requestID, l.requests[op.requestID])
    requires |l.orgs| >= 1 && Provenance(l, founders)
    requires op.RequestJoin? ==> tx.txID !in l.requests
    ensures Provenance(Step(l, tx, op), FoundersAfterStep(founders, op))
  {
    match op
    case RequestJoin(_, _, _, _, _, _) => JoinKeepsProvenance(l, tx, op, founders);
    case RegisterOrgs(_) => RegisterKeepsProvenance(l, tx, op, founders);
    case CastVote(id, d, reason) => VoteStepKeepsProvenance(l, tx, id, d, reason, founders);
    case InitLedger => PolicyKeepsProvenance(l, Step(l, tx, op), founders);
    case UpdatePolicy(_, _, _) => PolicyKeepsProvenance(l, Step(l, tx, op), founders);
  }

  /** From a bootstrapped ledger, every run keeps: an organisation is registered exactly when it is
      a founder or was voted in. */
  lemma {:induction false} RegistryProvenance(l: Ledger, calls: seq<Call>, founders: set<string>)
    requires Inv(l) && FreshIDs(l, calls) && |l.orgs| >= 1 && Provenance(l, founders)
    ensures Provenance(Run(l, calls), FoundersAfter(founders, calls))
  {
    if calls != [] {
      var init, last := calls[..|calls| - 1], calls[|calls| - 1];
      FreshPrefix(l, calls);
      RegistryProvenance(l, init, founders);
      RunKeepsInv(l, init);
      assert |Run(l, init).orgs| >= 1 by {
        RunEvolves(l, init);
        SubsetCardinality(l.orgs.Keys, Run(l, init).orgs.Keys);
      }
      if last.op.RequestJoin? { FreshAtEnd(l, init, last.tx.txID); }
      StepKeepsProvenance(Run(l, init), last.tx, last.op, FoundersAfter(founders, init));
    }
  }

  /** A network bootstrapped by registering its founders: after every run the ledger is consistent and
      holds the founders, those registered by hand and those voted in, and nobody else. */
  lemma BootstrappedNetwork(tx: Tx, founders: seq<Org>, calls: seq<Call>)
    requires founders != [] && FreshIDs(EMPTY, calls)
    ensures var l := Run(Step(EMPTY, tx, RegisterOrgs(founders)), calls);
            && Inv(l)
            && Provenance(l, FoundersAfter(set e | e in founders :: e.mspID, calls))
  {
    var l0 := Step(EMPTY, tx, RegisterOrgs(founders));
    RegisterAllKeys(map[], founders, tx.seconds);
    assert founders[0].mspID in l0.orgs.Keys;
    assert Provenance(l0, set e | e in founders :: e.mspID);
    RunKeepsInv(l0, calls);
    RegistryProvenance(l0, calls, set e | e in founders :: e.mspID);
  }

  /** A vote registers the organisation exactly when it approves the request, unless the request
      dates from an empty registry and the vote approves: then the request ends up rejected with
      its organisation registered. */
  lemma RegistrationMeansApproval(l: Ledger, tx: Tx, id: string, d: Decision, reason: string)
    requires Inv(l) && VoteError(l, tx, id) == None
    ensures var r := l.requests[id];
            var l' := AfterVote(l, tx, id, d, reason);
            (ReachesApproval(Counted(r, tx.clientMSP, d, tx.seconds)) <==> l'.requests[id].status == Approved)
            <==> !(r.totalOrgs == 0 && d == Approve)
    ensures l.requests[id].totalOrgs == 0 && d == Approve ==>
              && AfterVote(l, tx, id, d, reason).requests[id].status == Rejected
              && l.requests[id].mspID in AfterVote(l, tx, id, d, reason).orgs
  {
    var r := l.requests[id];
    VoteKeepsTally(id, r, tx.clientMSP, d, tx.seconds);
    assert |r.approvals[tx.clientMSP := tx.seconds]| == |r.approvals| + 1;
  }

  /** It happens: the first request ever made, before any organisation is registered, and the first vote on
      it. The organisation is registered and the request is rejected. */
  lemma FirstRequestDefect(tx: Tx, op: Op, vote: Tx, reason: string)
    requires op.RequestJoin? && Apply(EMPTY, tx, op).Ok?
    requires vote.clientMSP != op.mspID && !IsExpired(tx.seconds, DEFAULT_EXPIRY_HOURS, vote)
    ensures var l := Run(EMPTY, [Call(tx, op), Call(vote, CastVote(tx.txID, Approve, reason))]);
            && tx.txID in l.requests && l.requests[tx.txID].status == Rejected
            && op.mspID in l.orgs
  {
    var calls := [Call(tx, op), Call(vote, CastVote(tx.txID, Approve, reason))];
    assert calls[..1] == [Call(tx, op)] && calls[..1][..0] == [];
    assert Run(EMPTY, calls[..1]) == Step(EMPTY, tx, op);
    assert |EMPTY.orgs| == 0;
    var l := Step(EMPTY, tx, op);
    assert VoteError(l, vote, tx.txID) == None;
    assert |l.requests[tx.txID].approvals[vote.clientMSP := vote.seconds]| == 1;
  }

  /** Such a pair of transactions exists. */
  lemma FirstRequestDefectExample()
    ensures var join := Call(Tx("t1", "BankMSP", 0, 0), RequestJoin("Bank", "BankMSP", "bank.example", "peer0", 7051, ""));
            var l := Run(EMPTY, [join, Call(Tx("t2", "OtherMSP", 0, 0), CastVote("t1", Approve, ""))]);
            "t1" in l.requests && l.requests["t1"].status == Rejected && "BankMSP" in l.orgs
  {
    FirstRequestDefect(Tx("t1", "BankMSP", 0, 0), RequestJoin("Bank", "BankMSP", "bank.example", "peer0", 7051, ""),
                       Tx("t2", "OtherMSP", 0, 0), "");
  }

  /******* A ballot decides, whatever its order *******/

  predicate VotesOn(c: Call, id: string) {
    c.op.CastVote? && c.op.requestID == id
  }

  /** How many calls of a run approve or reject a request. */
  function Tally(calls: seq<Call>, id: string, d: Decision): nat {
    if calls == [] then 0
    else
      var last := calls[|calls| - 1];
      Tally(calls[..|calls| - 1], id, d) + if VotesOn(last, id) && last.op.decision == d then 1 else 0
  }

  /** The votes cast on a request during a run are by distinct organisations that may still vote on it, and
      each is in time by the policy of its moment. Anything else may happen between them. */
  ghost predicate ValidBallot(l: Ledger, id: string, calls: seq<Call>)
    requires id in l.requests
  {
    var r := l.requests[id];
    && (forall i :: 0 <= i < |calls| && VotesOn(calls[i], id) ==>
          && calls[i].tx.clientMSP != r.mspID && !HasVoted(r, calls[i].tx.clientMSP)
          && !IsExpired(r.createdAt, ExpiryHours(Run(l, calls[..i])), calls[i].tx))
    && (forall i, j :: 0 <= i < j < |calls| && VotesOn(calls[i], id) && VotesOn(calls[j], id) ==>
          calls[i].tx.clientMSP != calls[j].tx.clientMSP)
    && (forall i :: 0 <= i < |calls| && calls[i].op.RequestJoin? ==> calls[i].tx.txID != id)
  }

  lemma ValidPrefix(l: Ledger, id: string, calls: seq<Call>)
    requires id in l.requests && calls != [] && ValidBallot(l, id, calls)
    ensures ValidBallot(l, id, calls[..|calls| - 1])
  {
    var init := calls[..|calls| - 1];
    forall i | 0 <= i < |init| && VotesOn(init[i], id)
      ensures !IsExpired(l.requests[id].createdAt, ExpiryHours(Run(l, init[..i])), init[i].tx)
    {
      assert init[..i] == calls[..i] && init[i] == calls[i];
    }
  }

  lemma VoteCounts(id: string, r: JoinRequest, voter: string, d: Decision, now: int)
    requires RequestOk(id, r) && r.status == Pending && voter != r.mspID && !HasVoted(r, voter)
    ensures var r' := Evaluated(Counted(r, voter, d, now), now);
            && RequestOk(id, r')
            && |r'.approvals| == |r.approvals| + (if d == Approve then 1 else 0)
            && |r'.rejections| == |r.rejections| + (if d == Approve then 0 else 1)
            && (r.totalOrgs >= 1 ==> (r'.status == Approved <==> ReachesApproval(Counted(r, voter, d, now))))
  {
    VoteKeepsTally(id, r, voter, d, now);
    assert |r.approvals[voter := now]| == |r.approvals| + 1;
    assert |r.rejections[voter := now]| == |r.rejections| + 1;
  }

  /** A request that is resolved takes no more votes. */
  lemma ResolvedRefusesVotes(l: Ledger, tx: Tx, id: string, d: Decision, reason: string)
    requires id in l.requests && l.requests[id].status != Pending
    ensures Apply(l, tx, CastVote(id, d, reason)) == Err(NotPending)
  {
  }

  /** What other transactions leave of a request. */
  lemma OthersLeaveRequest(l: Ledger, c: Call, id: string)
    requires id in l.requests && !VotesOn(c, id)
    requires c.op.RequestJoin? ==> c.tx.txID != id
    ensures id in Step(l, c.tx, c.op).requests && Step(l, c.tx, c.op).requests[id] == l.requests[id]
  {
  }

  /** Whose votes a request can hold after a run. */
  ghost predicate VotedIn(l: Ledger, id: string, calls: seq<Call>, voter: string)
    requires id in l.requests
  {
    HasVoted(l.requests[id], voter) || exists i :: 0 <= i < |calls| && VotesOn(calls[i], id) && calls[i].tx.clientMSP == voter
  }

  /** The state of a ballot: undecided, with every vote in the tallies, or decided by the votes so far. */
  ghost predicate BallotState(r: JoinRequest, r': JoinRequest, ayes: nat, noes: nat) {
    var a, n := |r.approvals| + ayes, |r.rejections| + noes;
    && r'.mspID == r.mspID && r'.createdAt == r.createdAt && r'.totalOrgs == r.totalOrgs
    && r'.requiredAck == r.requiredAck
    && r'.status == (if a >= r.requiredAck then Approved
                     else if n > r.totalOrgs - r.requiredAck then Rejected
                     else Pending)
    && (r'.status == Pending ==> |r'.approvals| == a && |r'.rejections| == n)
  }

  lemma VoteMovesBallot(id: string, r: JoinRequest, r': JoinRequest, ayes: nat, noes: nat, voter: string, d: Decision, now: int)
    requires RequestOk(id, r') && r'.status == Pending && r.totalOrgs >= 1
    requires BallotState(r, r', ayes, noes)
    requires voter != r'.mspID && !HasVoted(r', voter)
    requires |r.approvals| + ayes + |r.rejections| + noes < r.totalOrgs
    ensures RequestOk(id, Evaluated(Counted(r', voter, d, now), now))
    ensures BallotState(r, Evaluated(Counted(r', voter, d, now), now),
                        ayes + if d == Approve then 1 else 0, noes + if d == Reject then 1 else 0)
  {
    VoteCounts(id, r', voter, d, now);
  }

  /** Decided stays decided: there are too few votes for the other outcome. */
  lemma DecidedBallotStays(r: JoinRequest, r': JoinRequest, ayes: nat, noes: nat, d: Decision)
    requires r.requiredAck == r.totalOrgs / 2 + 1 && r.totalOrgs >= 1
    requires BallotState(r, r', ayes, noes) && r'.status != Pending
    requires |r.approvals| + ayes + |r.rejections| + noes < r.totalOrgs
    ensures BallotState(r, r', ayes + if d == Approve then 1 else 0, noes + if d == Reject then 1 else 0)
  {
  }

  /** What is true of a request after each prefix of a run. */
  ghost predicate BallotOk(l: Ledger, id: string, calls: seq<Call>)
    requires id in l.requests
  {
    var l' := Run(l, calls);
    && id in l'.requests && RequestOk(id, l'.requests[id])
    && BallotState(l.requests[id], l'.requests[id], Tally(calls, id, Approve), Tally(calls, id, Reject))
    && forall v :: HasVoted(l'.requests[id], v) ==> VotedIn(l, id, calls, v)
  }

  lemma VotersStay(l: Ledger, id: string, calls: seq<Call>)
    requires id in l.requests && calls != []
    ensures forall v :: VotedIn(l, id, calls[..|calls| - 1], v) ==> VotedIn(l, id, calls, v)
  {
    var init := calls[..|calls| - 1];
    forall v | VotedIn(l, id, init, v)
      ensures VotedIn(l, id, calls, v)
    {
      if !HasVoted(l.requests[id], v) {
        var i :| 0 <= i < |init| && VotesOn(init[i], id) && init[i].tx.clientMSP == v;
        assert VotesOn(calls[i], id);
      }
    }
  }

  /** The next vote is by an organisation that has not voted. */
  lemma NextVoteIsNew(l: Ledger, id: string, calls: seq<Call>)
    requires id in l.requests && calls != [] && ValidBallot(l, id, calls) && VotesOn(calls[|calls| - 1], id)
    ensures !VotedIn(l, id, calls[..|calls| - 1], calls[|calls| - 1].tx.clientMSP)
  {
    var init, last := calls[..|calls| - 1], calls[|calls| - 1];
    assert forall i :: 0 <= i < |init| ==> init[i] == calls[i];
  }

  /** The last vote of a run meets a decided request. */
  lemma LateVote(l: Ledger, id: string, calls: seq<Call>)
    requires id in l.requests && l.requests[id].totalOrgs >= 1 && RequestOk(id, l.requests[id])
    requires calls != [] && VotesOn(calls[|calls| - 1], id)
    requires BallotOk(l, id, calls[..|calls| - 1])
    requires Run(l, calls[..|calls| - 1]).requests[id].status != Pending
    requires |l.requests[id].approvals| + |l.requests[id].rejections|
             + Tally(calls, id, Approve) + Tally(calls, id, Reject) <= l.requests[id].totalOrgs
    ensures BallotOk(l, id, calls)
  {
    var init, last := calls[..|calls| - 1], calls[|calls| - 1];
    var mid := Run(l, init);
    VotersStay(l, id, calls);
    ResolvedRefusesVotes(mid, last.tx, id, last.op.decision, last.op.reason);
    DecidedBallotStays(l.requests[id], mid.requests[id], Tally(init, id, Approve), Tally(init, id, Reject),
                       last.op.decision);
  }

  /** Or one that is still open. */
  lemma OpenVote(l: Ledger, id: string, calls: seq<Call>)
    requires id in l.requests && l.requests[id].totalOrgs >= 1
    requires calls != [] && ValidBallot(l, id, calls) && VotesOn(calls[|calls| - 1], id)
    requires BallotOk(l, id, calls[..|calls| - 1])
    requires Run(l, calls[..|calls| - 1]).requests[id].status == Pending
    requires |l.requests[id].approvals| + |l.requests[id].rejections|
             + Tally(calls, id, Approve) + Tally(calls, id, Reject) <= l.requests[id].totalOrgs
    ensures BallotOk(l, id, calls)
  {
    var init, last := calls[..|calls| - 1], calls[|calls| - 1];
    var mid := Run(l, init);
    VotersStay(l, id, calls);
    NextVoteIsNew(l, id, calls);
    assert VoteError(mid, last.tx, id) == None;
    VoteMovesBallot(id, l.requests[id], mid.requests[id], Tally(init, id, Approve), Tally(init, id, Reject),
                    last.tx.clientMSP, last.op.decision, last.tx.seconds);
    VotersAfterVote(l, mid, id, calls);
  }

  lemma VotersAfterVote(l: Ledger, mid: Ledger, id: string, calls: seq<Call>)
    requires id in l.requests && id in mid.requests && calls != []
    requires VotesOn(calls[|calls| - 1], id) && VoteError(mid, calls[|calls| - 1].tx, id) == None
    requires forall v :: HasVoted(mid.requests[id], v) ==> VotedIn(l, id, calls, v)
    ensures var last := calls[|calls| - 1];
            forall v :: HasVoted(Step(mid, last.tx, last.op).requests[id], v) ==> VotedIn(l, id, calls, v)
  {
    var last := calls[|calls| - 1];
    assert VotedIn(l, id, calls, last.tx.clientMSP);
    forall v | HasVoted(Step(mid, last.tx, last.op).requests[id], v)
      ensures VotedIn(l, id, calls, v)
    {
      if v != last.tx.clientMSP { assert HasVoted(mid.requests[id], v); }
    }
  }

  lemma BallotAfterOther(l: Ledger, id: string, calls: seq<Call>)
    requires id in l.requests && calls != [] && ValidBallot(l, id, calls) && !VotesOn(calls[|calls| - 1], id)
    requires BallotOk(l, id, calls[..|calls| - 1])
    ensures BallotOk(l, id, calls)
  {
    var init, last := calls[..|calls| - 1], calls[|calls| - 1];
    OthersLeaveRequest(Run(l, init), last, id);
    VotersStay(l, id, calls);
  }

  /** In any run, with any other transactions between the votes, as long as no more organisations vote than
      were counted at the request: it is approved once the approvals reach the threshold, rejected once the
      rejections make that impossible, and pending until then. */
  lemma {:induction false} BallotProgress(l: Ledger, id: string, calls: seq<Call>)
    requires id in l.requests && RequestOk(id, l.requests[id])
    requires l.requests[id].status == Pending && l.requests[id].totalOrgs >= 1
    requires ValidBallot(l, id, calls)
    requires |l.requests[id].approvals| + |l.requests[id].rejections|
             + Tally(calls, id, Approve) + Tally(calls, id, Reject) <= l.requests[id].totalOrgs
    ensures BallotOk(l, id, calls)
  {
    if calls != [] {
      ValidPrefix(l, id, calls);
      BallotProgress(l, id, calls[..|calls| - 1]);
      if VotesOn(calls[|calls| - 1], id) {
        if Run(l, calls[..|calls| - 1]).requests[id].status == Pending {
          OpenVote(l, id, calls);
        } else {
          LateVote(l, id, calls);
        }
      } else {
        BallotAfterOther(l, id, calls);
      }
    }
  }

  /** All the organisations counted at the request have voted by the end of the run. */
  ghost predicate FullBallot(l: Ledger, id: string, calls: seq<Call>) {
    && id in l.requests && RequestOk(id, l.requests[id])
    && l.requests[id].status == Pending && l.requests[id].totalOrgs >= 1
    && ValidBallot(l, id, calls)
    && |l.requests[id].approvals| + |l.requests[id].rejections|
       + Tally(calls, id, Approve) + Tally(calls, id, Reject) == l.requests[id].totalOrgs
  }

  /** In any run in which as many organisations have voted as were counted when the request was made, it
      ends approved if a strict majority of them approved, and rejected if not. */
  lemma BallotDecides(l: Ledger, id: string, calls: seq<Call>)
    requires FullBallot(l, id, calls)
    ensures id in Run(l, calls).requests
    ensures Run(l, calls).requests[id].status ==
            if |l.requests[id].approvals| + Tally(calls, id, Approve) >= l.requests[id].totalOrgs / 2 + 1
            then Approved else Rejected
  {
    BallotProgress(l, id, calls);
  }

  /** The organisations that approve a request in a run. */
  ghost function ApproversIn(calls: seq<Call>, id: string): set<string> {
    if calls == [] then {}
    else
      var last := calls[|calls| - 1];
      ApproversIn(calls[..|calls| - 1], id)
      + if VotesOn(last, id) && last.op.decision == Approve then {last.tx.clientMSP} else {}
  }

  lemma {:induction false} ApproversVoted(calls: seq<Call>, id: string, voter: string)
    ensures voter in ApproversIn(calls, id) <==>
            exists i :: 0 <= i < |calls| && VotesOn(calls[i], id) && calls[i].op.decision == Approve
                        && calls[i].tx.clientMSP == voter
  {
    if calls != [] {
      var init := calls[..|calls| - 1];
      ApproversVoted(init, id, voter);
      if voter in ApproversIn(init, id) {
        var i :| 0 <= i < |init| && VotesOn(init[i], id) && init[i].op.decision == Approve
                 && init[i].tx.clientMSP == voter;
        assert calls[i] == init[i];
      }
      if i :| 0 <= i < |calls| && VotesOn(calls[i], id) && calls[i].op.decision == Approve
              && calls[i].tx.clientMSP == voter {
        if i < |init| { assert init[i] == calls[i]; }
      }
    }
  }

  /** With one vote an organisation there are as many approvals as approvers. */
  lemma {:induction false} AyesAreApprovers(calls: seq<Call>, id: string)
    requires forall i, j :: 0 <= i < j < |calls| && VotesOn(calls[i], id) && VotesOn(calls[j], id) ==>
               calls[i].tx.clientMSP != calls[j].tx.clientMSP
    ensures Tally(calls, id, Approve) == |ApproversIn(calls, id)|
  {
    if calls != [] {
      var init, last := calls[..|calls| - 1], calls[|calls| - 1];
      AyesAreApprovers(init, id);
      ApproversVoted(init, id, last.tx.clientMSP);
    }
  }

  /** Two runs in which the same organisations approve, and as many reject, end the same way, in whatever order
      and at whatever times the votes were cast and whatever else happened, as long as no more vote than were
      counted at the request. */
  lemma {:induction false} BallotOrderIrrelevant(l: Ledger, id: string, cs: seq<Call>, ds: seq<Call>)
    requires id in l.requests && RequestOk(id, l.requests[id])
    requires l.requests[id].status == Pending && l.requests[id].totalOrgs >= 1
    requires ValidBallot(l, id, cs) && ValidBallot(l, id, ds)
    requires ApproversIn(cs, id) == ApproversIn(ds, id) && Tally(cs, id, Reject) == Tally(ds, id, Reject)
    requires |l.requests[id].approvals| + |l.requests[id].rejections|
             + Tally(cs, id, Approve) + Tally(cs, id, Reject) <= l.requests[id].totalOrgs
    ensures id in Run(l, cs).requests && id in Run(l, ds).requests
    ensures Run(l, cs).requests[id].status == Run(l, ds).requests[id].status
  {
    AyesAreApprovers(cs, id);
    AyesAreApprovers(ds, id);
    BallotProgress(l, id, cs);
    BallotProgress(l, id, ds);
  }

  /** No other way into the registry: the run does not register the MSP by hand or ask for it again. */
  ghost predicate OnlyByBallot(calls: seq<Call>, mspID: string) {
    forall i :: 0 <= i < |calls| ==>
      && (calls[i].op.RegisterOrgs? ==> forall e :: e in calls[i].op.entries ==> e.mspID != mspID)
      && (calls[i].op.RequestJoin? ==> calls[i].op.mspID != mspID)
  }

  /** A request is the only open one of its MSP, and the MSP is registered exactly if it was approved. */
  ghost predicate SoleRequest(l: Ledger, id: string, mspID: string) {
    && id in l.requests && l.requests[id].mspID == mspID
    && (forall j :: j in l.requests && j != id && l.requests[j].mspID == mspID ==> l.requests[j].status != Pending)
    && (mspID in l.orgs <==> l.requests[id].status == Approved)
  }

  lemma VoteKeepsSole(l: Ledger, tx: Tx, j: string, d: Decision, reason: string, id: string, mspID: string)
    requires SoleRequest(l, id, mspID) && l.requests[id].totalOrgs >= 1
    requires VoteError(l, tx, j) == None && RequestOk(j, l.requests[j])
    ensures SoleRequest(AfterVote(l, tx, j, d, reason), id, mspID)
  {
    VoteCounts(j, l.requests[j], tx.clientMSP, d, tx.seconds);
    assert j != id ==> l.requests[j].mspID != mspID;
  }

  lemma RegisterKeepsSole(l: Ledger, c: Call, id: string, mspID: string)
    requires SoleRequest(l, id, mspID) && c.op.RegisterOrgs?
    requires forall e :: e in c.op.entries ==> e.mspID != mspID
    ensures SoleRequest(Step(l, c.tx, c.op), id, mspID)
  {
    RegisterAllKeys(l.orgs, c.op.entries, c.tx.seconds);
  }

  lemma JoinKeepsSole(l: Ledger, c: Call, id: string, mspID: string)
    requires SoleRequest(l, id, mspID) && c.op.RequestJoin? && c.op.mspID != mspID && c.tx.txID !in l.requests
    ensures SoleRequest(Step(l, c.tx, c.op), id, mspID)
  {
  }

  lemma StepKeepsSole(l: Ledger, c: Call, id: string, mspID: string)
    requires SoleRequest(l, id, mspID) && l.requests[id].totalOrgs >= 1
    requires c.op.RegisterOrgs? ==> forall e :: e in c.op.entries ==> e.mspID != mspID
    requires c.op.RequestJoin? ==> c.op.mspID != mspID && c.tx.txID !in l.requests
    requires c.op.CastVote? && c.op.requestID in l.requests ==> RequestOk(c.op.requestID, l.requests[c.op.requestID])
    ensures SoleRequest(Step(l, c.tx, c.op), id, mspID)
  {
    match c.op
    case RegisterOrgs(_) => RegisterKeepsSole(l, c, id, mspID);
    case RequestJoin(_, _, _, _, _, _) => JoinKeepsSole(l, c, id, mspID);
    case CastVote(j, d, reason) =>
      if VoteError(l, c.tx, j) == None { VoteKeepsSole(l, c.tx, j, d, reason, id, mspID); }
    case _ =>
  }

  lemma {:induction false} RunKeepsSole(l: Ledger, calls: seq<Call>, id: string, mspID: string)
    requires Inv(l) && FreshIDs(l, calls)
    requires SoleRequest(l, id, mspID) && l.requests[id].totalOrgs >= 1 && OnlyByBallot(calls, mspID)
    ensures SoleRequest(Run(l, calls), id, mspID) && Run(l, calls).requests[id].totalOrgs >= 1
  {
    if calls != [] {
      var init, last := calls[..|calls| - 1], calls[|calls| - 1];
      FreshPrefix(l, calls);
      RunKeepsSole(l, init, id, mspID);
      RunKeepsInv(l, init);
      if last.op.RequestJoin? { FreshAtEnd(l, init, last.tx.txID); }
      StepKeepsSole(Run(l, init), last, id, mspID);
      StepEvolves(Run(l, init), last.tx, last.op);
    }
  }

  /** The whole admission, from the request on and through any run: with N registered organisations of which,
      or of whoever else, N vote in time, the newcomer is in the registry at the end exactly when more than
      half of the votes approve. */
  lemma AdmissionByMajority(l: Ledger, tx: Tx, op: Op, calls: seq<Call>)
    requires Inv(l) && op.RequestJoin? && Apply(l, tx, op).Ok? && tx.txID !in l.requests
    requires op.mspID !in l.orgs && |l.orgs| >= 1
    requires FreshIDs(Step(l, tx, op), calls) && OnlyByBallot(calls, op.mspID)
    requires ValidBallot(Step(l, tx, op), tx.txID, calls)
    requires Tally(calls, tx.txID, Approve) + Tally(calls, tx.txID, Reject) == |l.orgs|
    ensures var end := Run(Step(l, tx, op), calls);
            && tx.txID in end.requests
            && end.requests[tx.txID].status
               == (if 2 * Tally(calls, tx.txID, Approve) > |l.orgs| then Approved else Rejected)
            && (op.mspID in end.orgs <==> 2 * Tally(calls, tx.txID, Approve) > |l.orgs|)
  {
    JoinKeepsInv(l, tx, op);
    BallotDecides(Step(l, tx, op), tx.txID, calls);
    RunKeepsSole(Step(l, tx, op), calls, tx.txID, op.mspID);
  }

  /******* The policy type and threshold are recorded but never consulted *******/

  ghost function ForgetType(l: Ledger): Ledger {
    if l.policy.Some?
    then l.(policy := Some(l.policy.value.(policyType := "", thresholdPct := 0)))
    else l
  }

  /** Two runs that differ at most in the type and threshold of accepted policy updates. */
  ghost predicate SameButType(c: Call, d: Call) {
    c == d
    || (&& c.op.UpdatePolicy? && d.op.UpdatePolicy? && c.tx == d.tx && c.op.expiryHours == d.op.expiryHours
        && ValidType(c.op) && ValidType(d.op))
  }

  predicate ValidType(op: Op)
    requires op.UpdatePolicy?
  {
    op.policyType in ["MAJORITY", "UNANIMOUS", "THRESHOLD"] && 1 <= op.thresholdPct <= 100
  }

  lemma VoteIgnoresPolicyType(l: Ledger, m: Ledger, tx: Tx, id: string, d: Decision, reason: string)
    requires m == l.(policy := m.policy) && ExpiryHours(l) == ExpiryHours(m)
    ensures Step(m, tx, CastVote(id, d, reason)) == Step(l, tx, CastVote(id, d, reason)).(policy := m.policy)
  {
    assert VoteError(l, tx, id) == VoteError(m, tx, id);
  }

  lemma StepIgnoresPolicyType(l: Ledger, m: Ledger, c: Call, d: Call)
    requires ForgetType(l) == ForgetType(m) && SameButType(c, d)
    ensures ForgetType(Step(l, c.tx, c.op)) == ForgetType(Step(m, d.tx, d.op))
  {
    assert m == l.(policy := m.policy) && ExpiryHours(l) == ExpiryHours(m);
    if c.op.CastVote? {
      VoteIgnoresPolicyType(l, m, c.tx, c.op.requestID, c.op.decision, c.op.reason);
      assert Step(l, c.tx, c.op).policy == l.policy;
    }
  }

  /** Asking for unanimity, or for any percentage, changes no outcome: every vote is decided by
      simple majority. */
  lemma {:induction false} PolicyTypeNeverMatters(l: Ledger, cs: seq<Call>, ds: seq<Call>)
    requires |cs| == |ds| && forall i :: 0 <= i < |cs| ==> SameButType(cs[i], ds[i])
    ensures ForgetType(Run(l, cs)) == ForgetType(Run(l, ds))
  {
    if cs != [] {
      var n := |cs| - 1;
      PolicyTypeNeverMatters(l, cs[..n], ds[..n]);
      StepIgnoresPolicyType(Run(l, cs[..n]), Run(l, ds[..n]), cs[n], ds[n]);
    }
  }

  /** The approvals a policy asks for among n organisations: for a percentage, the least number that makes
      it up. */
  function NamedCount(policyType: string, pct: int, n: nat): int {
    if policyType == "UNANIMOUS" then n
    else if policyType == "THRESHOLD" then (n * pct + 99) / 100
    else n / 2 + 1
  }

  /** A full ballot among n organisations approves exactly from this many approvals on. */
  ghost predicate Honoured(n: nat, named: int, l: Ledger, id: string, calls: seq<Call>) {
    FullBallot(l, id, calls) && l.requests[id].totalOrgs == n ==>
      && id in Run(l, calls).requests
      && (Run(l, calls).requests[id].status == Approved
          <==> |l.requests[id].approvals| + Tally(calls, id, Approve) >= named)
  }

  ghost predicate InForce(l: Ledger, policyType: string, pct: int) {
    l.policy.Some? && l.policy.value.policyType == policyType && l.policy.value.thresholdPct == pct
  }

  /** Where some transactions from the empty ledger on have put a policy in force, ballots honour it. */
  ghost predicate HonouredAfter(policyType: string, pct: int, n: nat, setup: seq<Call>, id: string, calls: seq<Call>) {
    FreshIDs(EMPTY, setup) && InForce(Run(EMPTY, setup), policyType, pct) ==>
      Honoured(n, NamedCount(policyType, pct, n), Run(EMPTY, setup), id, calls)
  }

  /** A policy in force is honoured by all full ballots among n organisations if and only if it happens to name
      the simple majority. */
  lemma PolicyHonoured(policyType: string, pct: int, n: nat)
    requires policyType in ["MAJORITY", "UNANIMOUS", "THRESHOLD"] && 1 <= pct <= 100 && n >= 1
    ensures (forall setup, id, calls :: HonouredAfter(policyType, pct, n, setup, id, calls))
            <==> NamedCount(policyType, pct, n) == n / 2 + 1
    ensures policyType == "UNANIMOUS" ==> (NamedCount(policyType, pct, n) == n / 2 + 1 <==> n <= 2)
  {
    var named := NamedCount(policyType, pct, n);
    NamedInRange(policyType, pct, n);
    if named == n / 2 + 1 {
      forall setup, id, calls
        ensures HonouredAfter(policyType, pct, n, setup, id, calls)
      {
        if FullBallot(Run(EMPTY, setup), id, calls) { BallotDecides(Run(EMPTY, setup), id, calls); }
      }
    } else {
      var k := if named < n / 2 + 1 then named else n / 2 + 1;
      var setup, calls := SampleSetup(n, policyType, pct), SampleBallot(n, k);
      SetupLedger(n, policyType, pct);
      SampleIsFull(n, policyType, pct, k);
      BallotDecides(Run(EMPTY, setup), "r", calls);
      assert !HonouredAfter(policyType, pct, n, setup, "r", calls);
    }
  }

  lemma NamedInRange(policyType: string, pct: int, n: nat)
    requires 1 <= pct <= 100 && n >= 1
    ensures 1 <= NamedCount(policyType, pct, n) <= n
  {
    assert n * pct <= n * 100 && n * pct >= 1;
  }

  /******* A network of n organisations and a request *******/

  /** Voters are told apart by the lengths of their names. */
  ghost function Voter(i: nat): string {
    seq(i + 1, j => 'x')
  }

  ghost function Founders(n: nat): seq<Org> {
    seq(n, i requires 0 <= i => Org(Voter(i), "", ""))
  }

  ghost function Newcomer(): Op {
    RequestJoin("Newcomer", "MSP", "newcomer.example", "peer0", 7051, "")
  }

  /** The founders, a policy, and a request. */
  ghost function SampleSetup(n: nat, policyType: string, pct: int): seq<Call> {
    [Call(Tx("f", "", 0, 0), RegisterOrgs(Founders(n))),
     Call(Tx("p", "", 0, 0), UpdatePolicy(policyType, pct, 168)),
     Call(Tx("r", "", 0, 0), Newcomer())]
  }

  ghost function SampleRequest(n: nat): JoinRequest {
    JoinRequest("r", "Newcomer", "MSP", "newcomer.example", "", "peer0", 7051, Pending, map[], map[],
                n / 2 + 1, n, 0, 0, None, "")
  }

  ghost function Names(n: nat): set<string> {
    if n == 0 then {} else Names(n - 1) + {Voter(n - 1)}
  }

  lemma {:induction false} NamesCount(n: nat)
    ensures |Names(n)| == n && forall m :: m in Names(n) ==> |m| <= n
  {
    if n > 0 {
      NamesCount(n - 1);
      assert |Voter(n - 1)| == n && Voter(n - 1) !in Names(n - 1);
    }
  }

  lemma {:induction false} FoundersRegistered(n: nat, now: int)
    ensures RegisterAll(map[], Founders(n), now).Keys == Names(n)
  {
    if n > 0 {
      FoundersRegistered(n - 1, now);
      assert Founders(n)[..n - 1] == Founders(n - 1);
    }
  }

  lemma RunThree(l: Ledger, a: Call, b: Call, c: Call)
    ensures Run(l, [a, b, c]) == Step(Step(Step(l, a.tx, a.op), b.tx, b.op), c.tx, c.op)
  {
    assert [a, b, c][..2] == [a, b] && [a, b][..1] == [a] && [a][..0] == [];
    assert Run(l, [a]) == Step(l, a.tx, a.op);
    assert Run(l, [a, b]) == Step(Run(l, [a]), b.tx, b.op);
  }

  lemma FoundedLedger(n: nat)
    ensures var l := Step(EMPTY, Tx("f", "", 0, 0), RegisterOrgs(Founders(n)));
            l.requests == map[] && l.policy == None && |l.orgs| == n
  {
    FoundersRegistered(n, 0);
    NamesCount(n);
    var l := Step(EMPTY, Tx("f", "", 0, 0), RegisterOrgs(Founders(n)));
    assert |l.orgs| == |l.orgs.Keys|;
  }

  lemma RequestedLedger(l: Ledger, n: nat, p: Policy)
    requires l.requests == map[] && l.policy == Some(p) && |l.orgs| == n
    ensures Step(l, Tx("r", "", 0, 0), Newcomer()) == l.(requests := map["r" := SampleRequest(n)])
  {
    assert NewRequest(l, Tx("r", "", 0, 0), Newcomer()) == SampleRequest(n);
  }

  lemma SetupLedger(n: nat, policyType: string, pct: int)
    requires policyType in ["MAJORITY", "UNANIMOUS", "THRESHOLD"] && 1 <= pct <= 100
    ensures var l := Run(EMPTY, SampleSetup(n, policyType, pct));
            && l.requests == map["r" := SampleRequest(n)]
            && l.policy == Some(Policy(policyType, pct, 168, 0, ""))
    ensures FreshIDs(EMPTY, SampleSetup(n, policyType, pct))
  {
    var calls, p := SampleSetup(n, policyType, pct), Policy(policyType, pct, 168, 0, "");
    RunThree(EMPTY, calls[0], calls[1], calls[2]);
    FoundedLedger(n);
    var l := Step(EMPTY, calls[0].tx, calls[0].op);
    assert Step(l, calls[1].tx, calls[1].op) == l.(policy := Some(p));
    RequestedLedger(l.(policy := Some(p)), n, p);
  }

  ghost function SampleCall(i: nat, k: nat): Call {
    Call(Tx("", Voter(i), 0, 0), CastVote("r", if i < k then Approve else Reject, ""))
  }

  /** The first k of n voters approve, the others reject. */
  ghost function SampleBallot(n: nat, k: nat): seq<Call> {
    seq(n, i requires 0 <= i => SampleCall(i, k))
  }

  lemma {:induction false} SampleTally(n: nat, k: nat)
    requires k <= n
    ensures Tally(SampleBallot(n, k), "r", Approve) == k
    ensures Tally(SampleBallot(n, k), "r", Reject) == n - k
  {
    if n > 0 {
      var calls := SampleBallot(n, k);
      if k < n {
        assert calls[..n - 1] == SampleBallot(n - 1, k);
        SampleTally(n - 1, k);
      } else {
        assert calls[..n - 1] == SampleBallot(n - 1, n - 1);
        SampleTally(n - 1, n - 1);
      }
    }
  }

  lemma {:induction false} VotesKeepPolicy(l: Ledger, calls: seq<Call>)
    requires forall c :: c in calls ==> c.op.CastVote?
    ensures Run(l, calls).policy == l.policy
  {
    if calls != [] {
      VotesKeepPolicy(l, calls[..|calls| - 1]);
      assert calls[|calls| - 1] in calls;
    }
  }

  /** Sample votes, in any order, each organisation's once, are a valid ballot on the sample request. */
  lemma SampleIsValid(l: Ledger, n: nat, calls: seq<Call>)
    requires l.requests == map["r" := SampleRequest(n)]
    requires l.policy.Some? && l.policy.value.expiryHours == 168
    requires forall c :: c in calls ==> exists i: nat, k: nat :: c == SampleCall(i, k)
    requires forall i, j :: 0 <= i < j < |calls| ==> calls[i].tx.clientMSP != calls[j].tx.clientMSP
    ensures ValidBallot(l, "r", calls)
  {
    assert forall c :: c in calls ==> c.op.CastVote?;
    forall i | 0 <= i < |calls|
      ensures calls[i].op.CastVote? && calls[i].tx.clientMSP != "MSP"
      ensures !IsExpired(0, ExpiryHours(Run(l, calls[..i])), calls[i].tx)
    {
      assert calls[i] in calls;
      var v: nat, k: nat :| calls[i] == SampleCall(v, k);
      assert calls[i].tx.clientMSP[0] == 'x';
      assert forall c :: c in calls[..i] ==> c in calls;
      VotesKeepPolicy(l, calls[..i]);
    }
  }

  lemma SampleVoters(n: nat, k: nat)
    ensures forall c :: c in SampleBallot(n, k) ==> exists i: nat, j: nat :: c == SampleCall(i, j)
    ensures forall i, j :: 0 <= i < j < n ==>
              SampleBallot(n, k)[i].tx.clientMSP != SampleBallot(n, k)[j].tx.clientMSP
  {
    forall i, j | 0 <= i < j < n
      ensures SampleBallot(n, k)[i].tx.clientMSP != SampleBallot(n, k)[j].tx.clientMSP
    {
      assert |Voter(i)| != |Voter(j)|;
    }
  }

  lemma SampleIsFull(n: nat, policyType: string, pct: int, k: nat)
    requires policyType in ["MAJORITY", "UNANIMOUS", "THRESHOLD"] && 1 <= pct <= 100 && 1 <= n && k <= n
    ensures FullBallot(Run(EMPTY, SampleSetup(n, policyType, pct)), "r", SampleBallot(n, k))
    ensures Tally(SampleBallot(n, k), "r", Approve) == k
  {
    SetupLedger(n, policyType, pct);
    SampleVoters(n, k);
    SampleIsValid(Run(EMPTY, SampleSetup(n, policyType, pct)), n, SampleBallot(n, k));
    SampleTally(n, k);
  }

  /******* Where order begins to matter *******/

  lemma {:induction false} RunAppend(l: Ledger, cs: seq<Call>, ds: seq<Call>)
    ensures Run(l, cs + ds) == Run(Run(l, cs), ds)
  {
    if ds == [] {
      assert cs + ds == cs;
    } else {
      RunAppend(l, cs, ds[..|ds| - 1]);
      assert (cs + ds)[..|cs + ds| - 1] == cs + ds[..|ds| - 1];
    }
  }

  lemma VotesAreFresh(l: Ledger, calls: seq<Call>)
    requires forall c :: c in calls ==> c.op.CastVote?
    ensures FreshIDs(l, calls)
  {
    assert forall i :: 0 <= i < |calls| ==> calls[i] in calls;
  }

  /** A decision made by the first votes stands. */
  lemma DecisionStands(l: Ledger, id: string, first: seq<Call>, rest: seq<Call>)
    requires Inv(l) && (forall c :: c in first ==> c.op.CastVote?) && (forall c :: c in rest ==> c.op.CastVote?)
    requires id in Run(l, first).requests && Run(l, first).requests[id].status != Pending
    ensures id in Run(l, first + rest).requests
    ensures Run(l, first + rest).requests[id] == Run(l, first).requests[id]
  {
    VotesAreFresh(l, first);
    RunKeepsInv(l, first);
    RunAppend(l, first, rest);
    FrozenOnceDecided(Run(l, first), id, rest);
  }

  lemma FrozenOnceDecided(l: Ledger, id: string, calls: seq<Call>)
    requires Inv(l) && id in l.requests && l.requests[id].status != Pending
    requires forall c :: c in calls ==> c.op.CastVote?
    ensures id in Run(l, calls).requests && Run(l, calls).requests[id] == l.requests[id]
  {
    VotesAreFresh(l, calls);
    RunEvolves(l, calls);
    assert RequestEvolves(l.requests[id], Run(l, calls).requests[id]);
  }

  /** Two ballots of m votes on a new request among n organisations, made after some transactions from the
      empty ledger on, with the same approvers and as many rejections. */
  ghost predicate SameBallots(n: nat, m: nat, setup: seq<Call>, id: string, cs: seq<Call>, ds: seq<Call>) {
    var l := Run(EMPTY, setup);
    && FreshIDs(EMPTY, setup)
    && id in l.requests && l.requests[id].status == Pending && l.requests[id].totalOrgs == n
    && l.requests[id].approvals == map[] && l.requests[id].rejections == map[]
    && ValidBallot(l, id, cs) && ValidBallot(l, id, ds)
    && ApproversIn(cs, id) == ApproversIn(ds, id)
    && Tally(cs, id, Reject) == Tally(ds, id, Reject) == m - Tally(cs, id, Approve)
  }

  ghost predicate SameOutcome(l: Ledger, id: string, cs: seq<Call>, ds: seq<Call>) {
    && id in Run(l, cs).requests && id in Run(l, ds).requests
    && Run(l, cs).requests[id].status == Run(l, ds).requests[id].status
  }

  ghost predicate OrderFree(n: nat, m: nat, setup: seq<Call>, id: string, cs: seq<Call>, ds: seq<Call>) {
    SameBallots(n, m, setup, id, cs, ds) ==> SameOutcome(Run(EMPTY, setup), id, cs, ds)
  }

  /** Order never matters with m votes among n organisations if and only if m <= n. Voters need not be
      registered, so more can vote than were counted. */
  lemma OrderMattersBeyond(n: nat, m: nat)
    requires n >= 1
    ensures (forall setup, id, cs, ds :: OrderFree(n, m, setup, id, cs, ds)) <==> m <= n
  {
    if m <= n {
      forall setup, id, cs, ds
        ensures OrderFree(n, m, setup, id, cs, ds)
      {
        if SameBallots(n, m, setup, id, cs, ds) { NoMoreThanCounted(n, m, setup, id, cs, ds); }
      }
    } else {
      var cs := SampleBallot(m, n / 2 + 1);
      var ds := Turned(n, m);
      TurnedIsSame(n, m);
      TurnedDiffers(n, m);
      assert !OrderFree(n, m, SampleSetup(n, "MAJORITY", 51), "r", cs, ds);
    }
  }

  lemma NoMoreThanCounted(n: nat, m: nat, setup: seq<Call>, id: string, cs: seq<Call>, ds: seq<Call>)
    requires 1 <= n && m <= n && SameBallots(n, m, setup, id, cs, ds)
    ensures SameOutcome(Run(EMPTY, setup), id, cs, ds)
  {
    LedgerInvariant(setup);
    BallotOrderIrrelevant(Run(EMPTY, setup), id, cs, ds);
  }

  /** The sample ballot with its rejections first. */
  ghost function Turned(n: nat, m: nat): seq<Call>
    requires 1 <= n < m
  {
    var cs, a := SampleBallot(m, n / 2 + 1), n / 2 + 1;
    cs[a..] + cs[..a]
  }

  lemma TurnedIsSame(n: nat, m: nat)
    requires 1 <= n < m
    ensures SameBallots(n, m, SampleSetup(n, "MAJORITY", 51), "r", SampleBallot(m, n / 2 + 1), Turned(n, m))
  {
    SetupLedger(n, "MAJORITY", 51);
    TurnIsValid(Run(EMPTY, SampleSetup(n, "MAJORITY", 51)), n, m, n / 2 + 1);
    TurnTallies(m, n / 2 + 1);
  }

  lemma TurnedDiffers(n: nat, m: nat)
    requires 1 <= n < m
    ensures !SameOutcome(Run(EMPTY, SampleSetup(n, "MAJORITY", 51)), "r", SampleBallot(m, n / 2 + 1), Turned(n, m))
  {
    SetupLedger(n, "MAJORITY", 51);
    LedgerInvariant(SampleSetup(n, "MAJORITY", 51));
    OutcomesDiffer(Run(EMPTY, SampleSetup(n, "MAJORITY", 51)), n, m);
  }

  lemma OutcomesDiffer(l: Ledger, n: nat, m: nat)
    requires Inv(l) && l.requests == map["r" := SampleRequest(n)] && 1 <= n < m
    requires l.policy.Some? && l.policy.value.expiryHours == 168
    ensures !SameOutcome(l, "r", SampleBallot(m, n / 2 + 1), Turned(n, m))
  {
    TurnIsValid(l, n, m, n / 2 + 1);
    ApprovedFirst(l, n, m);
    RejectedFirst(l, n, m);
  }

  lemma TurnIsValid(l: Ledger, n: nat, m: nat, a: nat)
    requires l.requests == map["r" := SampleRequest(n)] && a <= m
    requires l.policy.Some? && l.policy.value.expiryHours == 168
    ensures var cs := SampleBallot(m, a);
            ValidBallot(l, "r", cs) && ValidBallot(l, "r", cs[a..] + cs[..a])
  {
    var cs := SampleBallot(m, a);
    var ds := cs[a..] + cs[..a];
    SampleVoters(m, a);
    SampleIsValid(l, n, cs);
    TurnVoters(m, a);
    SampleIsValid(l, n, ds);
  }

  lemma TurnVoters(m: nat, a: nat)
    requires a <= m
    ensures var ds := SampleBallot(m, a)[a..] + SampleBallot(m, a)[..a];
            && (forall c :: c in ds ==> exists i: nat, j: nat :: c == SampleCall(i, j))
            && (forall i, j :: 0 <= i < j < m ==> ds[i].tx.clientMSP != ds[j].tx.clientMSP)
  {
    var ds := SampleBallot(m, a)[a..] + SampleBallot(m, a)[..a];
    forall i | 0 <= i < m
      ensures ds[i] == SampleCall(if i < m - a then i + a else i - (m - a), a)
      ensures |ds[i].tx.clientMSP| == (if i < m - a then i + a else i - (m - a)) + 1
    {
    }
  }

  lemma {:induction false} TallyAppend(cs: seq<Call>, ds: seq<Call>, id: string, d: Decision)
    ensures Tally(cs + ds, id, d) == Tally(cs, id, d) + Tally(ds, id, d)
  {
    if ds == [] {
      assert cs + ds == cs;
    } else {
      TallyAppend(cs, ds[..|ds| - 1], id, d);
      assert (cs + ds)[..|cs + ds| - 1] == cs + ds[..|ds| - 1];
    }
  }

  lemma {:induction false} ApproversOfAppend(cs: seq<Call>, ds: seq<Call>, id: string)
    ensures ApproversIn(cs + ds, id) == ApproversIn(cs, id) + ApproversIn(ds, id)
  {
    if ds == [] {
      assert cs + ds == cs;
    } else {
      ApproversOfAppend(cs, ds[..|ds| - 1], id);
      assert (cs + ds)[..|cs + ds| - 1] == cs + ds[..|ds| - 1];
    }
  }

  lemma TurnTallies(m: nat, a: nat)
    requires a <= m
    ensures var cs := SampleBallot(m, a);
            var ds := cs[a..] + cs[..a];
            && Tally(cs, "r", Approve) == a && Tally(cs, "r", Reject) == Tally(ds, "r", Reject) == m - a
            && ApproversIn(cs, "r") == ApproversIn(ds, "r")
  {
    var cs := SampleBallot(m, a);
    SampleTally(m, a);
    assert cs == cs[..a] + cs[a..];
    TallyAppend(cs[..a], cs[a..], "r", Reject);
    TallyAppend(cs[a..], cs[..a], "r", Reject);
    ApproversOfAppend(cs[..a], cs[a..], "r");
    ApproversOfAppend(cs[a..], cs[..a], "r");
  }

  lemma {:induction false} AllOne(calls: seq<Call>, d: Decision)
    requires forall c :: c in calls ==> VotesOn(c, "r") && c.op.decision == d
    ensures Tally(calls, "r", d) == |calls|
    ensures Tally(calls, "r", if d == Approve then Reject else Approve) == 0
  {
    if calls != [] {
      assert calls[|calls| - 1] in calls;
      AllOne(calls[..|calls| - 1], d);
    }
  }

  lemma {:induction false} PrefixValid(l: Ledger, id: string, calls: seq<Call>, k: nat)
    requires id in l.requests && ValidBallot(l, id, calls) && k <= |calls|
    ensures ValidBallot(l, id, calls[..k])
    decreases |calls|
  {
    if k < |calls| {
      ValidPrefix(l, id, calls);
      PrefixValid(l, id, calls[..|calls| - 1], k);
      assert calls[..|calls| - 1][..k] == calls[..k];
    } else {
      assert calls[..k] == calls;
    }
  }

  /** Enough equal votes decide, whatever votes follow. */
  lemma SameVotesDecide(l: Ledger, n: nat, first: seq<Call>, rest: seq<Call>, d: Decision)
    requires Inv(l) && l.requests == map["r" := SampleRequest(n)] && 1 <= n
    requires ValidBallot(l, "r", first) && forall c :: c in first ==> VotesOn(c, "r") && c.op.decision == d
    requires forall c :: c in rest ==> c.op.CastVote?
    requires (if d == Approve then n / 2 + 1 else n - n / 2) <= |first| <= n
    ensures "r" in Run(l, first + rest).requests
    ensures Run(l, first + rest).requests["r"].status == if d == Approve then Approved else Rejected
  {
    AllOne(first, d);
    BallotProgress(l, "r", first);
    DecisionStands(l, "r", first, rest);
  }

  lemma SampleParts(m: nat, a: nat)
    requires a <= m
    ensures var cs := SampleBallot(m, a);
            && cs == cs[..a] + cs[a..]
            && (forall c :: c in cs[..a] ==> VotesOn(c, "r") && c.op.decision == Approve)
            && (forall c :: c in cs[a..] ==> c.op.CastVote?)
  {
  }

  lemma ApprovedFirst(l: Ledger, n: nat, m: nat)
    requires Inv(l) && l.requests == map["r" := SampleRequest(n)] && 1 <= n < m
    requires ValidBallot(l, "r", SampleBallot(m, n / 2 + 1))
    ensures "r" in Run(l, SampleBallot(m, n / 2 + 1)).requests
    ensures Run(l, SampleBallot(m, n / 2 + 1)).requests["r"].status == Approved
  {
    var cs, a := SampleBallot(m, n / 2 + 1), n / 2 + 1;
    PrefixValid(l, "r", cs, a);
    SampleParts(m, a);
    SameVotesDecide(l, n, cs[..a], cs[a..], Approve);
  }

  lemma TurnedParts(n: nat, m: nat, k: nat)
    requires 1 <= n < m && k <= n - n / 2
    ensures var ds := Turned(n, m);
            && k <= |ds| && ds == ds[..k] + ds[k..]
            && (forall c :: c in ds[..k] ==> VotesOn(c, "r") && c.op.decision == Reject)
            && (forall c :: c in ds[k..] ==> c.op.CastVote?)
  {
    var ds, a := Turned(n, m), n / 2 + 1;
    forall i | 0 <= i < m
      ensures ds[i] == SampleCall(if i < m - a then i + a else i - (m - a), a)
    {
    }
  }

  lemma RejectedFirst(l: Ledger, n: nat, m: nat)
    requires Inv(l) && l.requests == map["r" := SampleRequest(n)] && 1 <= n < m
    requires ValidBallot(l, "r", Turned(n, m))
    ensures "r" in Run(l, Turned(n, m)).requests && Run(l, Turned(n, m)).requests["r"].status == Rejected
  {
    var k, ds := n - n / 2, Turned(n, m);
    PrefixValid(l, "r", ds, k);
    TurnedParts(n, m, k);
    SameVotesDecide(l, n, ds[..k], ds[k..], Reject);
  }

  /******* Expiry *******/

  /** The hours that the last accepted policy update of a run names, or the default. */
  function LastHours(calls: seq<Call>): int {
    if calls == [] then 168
    else
      match calls[|calls| - 1].op
      case UpdatePolicy(policyType, pct, hours) =>
        if policyType in ["MAJORITY", "UNANIMOUS", "THRESHOLD"] && 1 <= pct <= 100 && hours >= 1 then hours
        else LastHours(calls[..|calls| - 1])
      case _ => LastHours(calls[..|calls| - 1])
  }

  lemma {:induction false} HoursOfRun(calls: seq<Call>)
    ensures ExpiryHours(Run(EMPTY, calls)) == LastHours(calls)
  {
    if calls != [] {
      var last := calls[|calls| - 1];
      HoursOfRun(calls[..|calls| - 1]);
      StepHours(Run(EMPTY, calls[..|calls| - 1]), last.tx, last.op);
    }
  }

  lemma StepHours(l: Ledger, tx: Tx, op: Op)
    ensures ExpiryHours(Step(l, tx, op)) ==
            if op.UpdatePolicy? && op.policyType in ["MAJORITY", "UNANIMOUS", "THRESHOLD"] && 1 <= op.thresholdPct <= 100
               && op.expiryHours >= 1
            then op.expiryHours else ExpiryHours(l)
  {
  }

  /** The policy as the calls of a run leave it: what the last accepted update says, or else what the first
      initialisation put there. */
  function LastPolicy(calls: seq<Call>): Option<Policy> {
    if calls == [] then None
    else
      var before, tx := LastPolicy(calls[..|calls| - 1]), calls[|calls| - 1].tx;
      match calls[|calls| - 1].op
      case UpdatePolicy(policyType, pct, hours) =>
        if policyType in ["MAJORITY", "UNANIMOUS", "THRESHOLD"] && 1 <= pct <= 100 && hours >= 1
        then Some(Policy(policyType, pct, hours, tx.seconds, tx.clientMSP))
        else before
      case InitLedger => if before.Some? then before else Some(Policy("MAJORITY", 51, 168, tx.seconds, tx.clientMSP))
      case _ => before
  }

  lemma {:induction false} PolicyOnRecord(calls: seq<Call>)
    ensures Run(EMPTY, calls).policy == LastPolicy(calls)
  {
    if calls != [] {
      var last := calls[|calls| - 1];
      PolicyOnRecord(calls[..|calls| - 1]);
      StepPolicy(Run(EMPTY, calls[..|calls| - 1]), last.tx, last.op);
    }
  }

  lemma StepPolicy(l: Ledger, tx: Tx, op: Op)
    ensures Step(l, tx, op).policy ==
            match op
            case UpdatePolicy(policyType, pct, hours) =>
              if policyType in ["MAJORITY", "UNANIMOUS", "THRESHOLD"] && 1 <= pct <= 100 && hours >= 1
              then Some(Policy(policyType, pct, hours, tx.seconds, tx.clientMSP))
              else l.policy
            case InitLedger =>
              if l.policy.Some? then l.policy else Some(Policy("MAJORITY", 51, 168, tx.seconds, tx.clientMSP))
            case _ => l.policy
  {
  }

  /** Call i of a run makes this request. */
  ghost predicate Requests(calls: seq<Call>, i: int, id: string) {
    && 0 <= i < |calls| && calls[i].op.RequestJoin? && calls[i].tx.txID == id
    && Apply(Run(EMPTY, calls[..i]), calls[i].tx, calls[i].op).Ok?
  }

  lemma FreshUpTo(l: Ledger, calls: seq<Call>, i: nat)
    requires FreshIDs(l, calls) && i <= |calls|
    ensures FreshIDs(l, calls[..i])
  {
  }

  lemma FreshFrom(calls: seq<Call>, i: nat)
    requires FreshIDs(EMPTY, calls) && i <= |calls|
    ensures FreshIDs(Run(EMPTY, calls[..i]), calls[i..])
  {
    forall j | 0 <= j < |calls| - i && calls[i..][j].op.RequestJoin?
      ensures calls[i..][j].tx.txID !in Run(EMPTY, calls[..i]).requests
    {
      FreshAtEnd(EMPTY, calls[..i], calls[i + j].tx.txID);
    }
  }

  /** For as long as the ledger lives, a request says what was asked for, by whom and when, and names the
      organisations registered then. */
  lemma RequestsSayWhatWasAsked(calls: seq<Call>, i: int, id: string)
    requires FreshIDs(EMPTY, calls) && Requests(calls, i, id)
    ensures var op, tx, l := calls[i].op, calls[i].tx, Run(EMPTY, calls);
            && id in l.requests
            && var r := l.requests[id];
               && r.requestID == id && r.orgName == op.orgName && r.mspID == op.mspID && r.domain == op.domain
               && r.description == op.description && r.anchorHost == op.anchorHost && r.anchorPort == op.anchorPort
               && r.creatorMSP == tx.clientMSP && r.createdAt == tx.seconds
               && r.totalOrgs == |Run(EMPTY, calls[..i]).orgs|
  {
    var k := i + 1;
    assert calls[..k][..i] == calls[..i] && calls == calls[..k] + calls[k..];
    FreshUpTo(EMPTY, calls, k);
    LedgerInvariant(calls[..k]);
    FreshFrom(calls, k);
    RunAppend(EMPTY, calls[..k], calls[k..]);
    RunEvolves(Run(EMPTY, calls[..k]), calls[k..]);
    assert RequestEvolves(Run(EMPTY, calls[..k]).requests[id], Run(EMPTY, calls).requests[id]);
  }

  /** The deadline, from the calls alone: a vote by an organisation that may vote on a pending request fails as
      expired exactly if it comes later than the hours of the last accepted policy update after the request, and
      commits otherwise. */
  lemma {:induction false} DeadlineByPolicy(calls: seq<Call>, i: int, id: string, tx: Tx, d: Decision, reason: string)
    requires FreshIDs(EMPTY, calls) && Requests(calls, i, id) && LastHours(calls) <= 2562047
    requires id in Run(EMPTY, calls).requests && Run(EMPTY, calls).requests[id].status == Pending
    requires tx.clientMSP != calls[i].op.mspID && !HasVoted(Run(EMPTY, calls).requests[id], tx.clientMSP)
    ensures var r := Apply(Run(EMPTY, calls), tx, CastVote(id, d, reason));
            && (r == Err(RequestExpired) <==>
                  tx.seconds * 1_000_000_000 + tx.nanos
                  > (calls[i].tx.seconds + 3600 * LastHours(calls)) * 1_000_000_000)
            && (r != Err(RequestExpired) ==> r.Ok?)
  {
    HoursOfRun(calls);
    RequestsSayWhatWasAsked(calls, i, id);
    HoursPositive(calls);
    ExpiryHonoured(LastHours(calls));
    assert IsExpired(calls[i].tx.seconds, LastHours(calls), tx) <==> OutlivesHours(calls[i].tx.seconds, LastHours(calls), tx);
  }

  lemma {:induction false} HoursPositive(calls: seq<Call>)
    ensures LastHours(calls) >= 1
  {
    if calls != [] {
      HoursPositive(calls[..|calls| - 1]);
    }
  }

  /** A committed vote is on record for good, as it was cast; if it admits the newcomer, the registry says who
      that is. */
  lemma VoteOnRecord(l: Ledger, tx: Tx, id: string, d: Decision, reason: string, calls: seq<Call>)
    requires Inv(l) && Apply(l, tx, CastVote(id, d, reason)).Ok?
    requires FreshIDs(Step(l, tx, CastVote(id, d, reason)), calls)
    ensures var l' := Step(l, tx, CastVote(id, d, reason));
            && (id, tx.clientMSP) in Run(l', calls).votes
            && Run(l', calls).votes[(id, tx.clientMSP)] == VoteRecord(id, tx.clientMSP, d, reason, tx.seconds)
            && (l'.requests[id].status == Approved ==>
                  var r := l.requests[id];
                  r.mspID in l'.orgs && l'.orgs[r.mspID] == OrgEntry(r.mspID, r.orgName, r.domain, tx.seconds))
  {
    VoteKeepsInv(l, tx, id, d, reason);
    RunEvolves(Step(l, tx, CastVote(id, d, reason)), calls);
    RegistrationMeansApproval(l, tx, id, d, reason);
  }

  /** Which transactions commit, from the requests and vote records alone. */
  lemma {:induction false} CommitsExactly(calls: seq<Call>, tx: Tx, op: Op)
    requires FreshIDs(EMPTY, calls)
    ensures var l := Run(EMPTY, calls);
            Apply(l, tx, op).Ok? <==>
            match op
            case InitLedger => true
            case RegisterOrgs(_) => true
            case UpdatePolicy(policyType, pct, hours) =>
              policyType in ["MAJORITY", "UNANIMOUS", "THRESHOLD"] && 1 <= pct <= 100 && hours >= 1
            case RequestJoin(orgName, mspID, domain, _, port, _) =>
              && orgName != "" && mspID != "" && domain != "" && 1 <= port <= 65535
              && forall id :: id in l.requests && l.requests[id].mspID == mspID ==> l.requests[id].status != Pending
            case CastVote(id, _, _) =>
              && id in l.requests && l.requests[id].status == Pending && tx.clientMSP != l.requests[id].mspID
              && (id, tx.clientMSP) !in l.votes && !IsExpired(l.requests[id].createdAt, LastHours(calls), tx)
  {
    var l := Run(EMPTY, calls);
    LedgerInvariant(calls);
    HoursOfRun(calls);
    if op.CastVote? && op.requestID in l.requests {
      assert (op.requestID, tx.clientMSP) in l.votes ==> RecordOk(l, (op.requestID, tx.clientMSP));
      assert HasVoted(l.requests[op.requestID], tx.clientMSP) <==> (op.requestID, tx.clientMSP) in l.votes;
    }
  }

  /** An expired request is never stored as expired. In any run in which every vote on it comes too late it
      stays as it is, and its organisation is locked out: every new request of its MSP is refused. */
  lemma {:induction false} ExpiredLocksOut(l: Ledger, id: string, calls: seq<Call>)
    requires id in l.requests && l.requests[id].status == Pending && FreshIDs(l, calls)
    requires forall i :: 0 <= i < |calls| && VotesOn(calls[i], id) ==>
               IsExpired(l.requests[id].createdAt, ExpiryHours(Run(l, calls[..i])), calls[i].tx)
    ensures id in Run(l, calls).requests && Run(l, calls).requests[id] == l.requests[id]
    ensures forall i :: 0 <= i < |calls| && calls[i].op.RequestJoin? && calls[i].op.mspID == l.requests[id].mspID ==>
              Apply(Run(l, calls[..i]), calls[i].tx, calls[i].op).Err?
  {
    StaysUnresolved(l, id, calls);
    forall i | 0 <= i < |calls| && calls[i].op.RequestJoin? && calls[i].op.mspID == l.requests[id].mspID
      ensures Apply(Run(l, calls[..i]), calls[i].tx, calls[i].op).Err?
    {
      assert forall j :: 0 <= j < i ==> calls[..i][..j] == calls[..j];
      StaysUnresolved(l, id, calls[..i]);
      assert HasPending(Run(l, calls[..i]).requests, calls[i].op.mspID);
    }
  }

  lemma {:induction false} StaysUnresolved(l: Ledger, id: string, calls: seq<Call>)
    requires id in l.requests && l.requests[id].status == Pending
    requires forall i :: 0 <= i < |calls| && calls[i].op.RequestJoin? ==> calls[i].tx.txID != id
    requires forall i :: 0 <= i < |calls| && VotesOn(calls[i], id) ==>
               IsExpired(l.requests[id].createdAt, ExpiryHours(Run(l, calls[..i])), calls[i].tx)
    ensures id in Run(l, calls).requests && Run(l, calls).requests[id] == l.requests[id]
  {
    if calls != [] {
      var init, last := calls[..|calls| - 1], calls[|calls| - 1];
      assert forall j :: 0 <= j < |init| ==> init[..j] == calls[..j];
      StaysUnresolved(l, id, init);
      if VotesOn(last, id) {
        assert VoteError(Run(l, init), last.tx, id) == Some(RequestExpired);
      } else {
        OthersLeaveRequest(Run(l, init), last, id);
      }
    }
  }

  /** The hours a policy names, without the 64-bit duration. */
  predicate OutlivesHours(createdAt: int, expiryHours: int, tx: Tx) {
    tx.seconds * NANOS_PER_SECOND + tx.nanos > (createdAt + expiryHours * 3600) * NANOS_PER_SECOND
  }

  /** Requests live for the hours a policy names exactly up to 2562047 hours; any larger accepted
      figure wraps, and some request expires too early. */
  lemma ExpiryHonoured(expiryHours: int)
    requires expiryHours >= 1
    ensures (forall createdAt, tx :: IsExpired(createdAt, expiryHours, tx) <==> OutlivesHours(createdAt, expiryHours, tx))
            <==> expiryHours <= 2562047
  {
    if expiryHours > 2562047 {
      var d := WrapInt64(expiryHours * NANOS_PER_HOUR);
      var now := if d < 0 then 0 else d + 1;
      var tx := Tx("", "", now / NANOS_PER_SECOND, now % NANOS_PER_SECOND);
      assert IsExpired(0, expiryHours, tx) && !OutlivesHours(0, expiryHours, tx);
    }
  }

  /******* The contract *******/

  /** The contract object over the world state. Each method is one transaction: it works on copies
      of the state it writes and stores them only on success. */
  class GovernanceContract {
    var requests: map<string, JoinRequest>
    var votes: map<(string, string), VoteRecord>
    var orgs: map<string, OrgEntry>
    var policy: Option<Policy>

    ghost function State(): Ledger
      reads this
    {
      Ledger(requests, votes, orgs, policy)
    }

    /** What a transaction reports and leaves behind, given the ledger it started from. */
    ghost predicate Performs(before: Ledger, tx: Tx, op: Op, err: Option<Error>)
      reads this
    {
      && Apply(before, tx, op) == (if err.Some? then Err(err.value) else Ok(State()))
      && State() == Step(before, tx, op)
    }

    constructor ()
      ensures State() == EMPTY
    {
      requests, votes, orgs, policy := map[], map[], map[], None;
    }

    method InitLedger(tx: Tx) returns (err: Option<Error>)
      modifies this`policy
      ensures Performs(old(State()), tx, Op.InitLedger, err)
    {
      err := None;
      if policy.Some? {
        return;
      }
      policy := Some(Policy(DEFAULT_POLICY_TYPE, DEFAULT_THRESHOLD, DEFAULT_EXPIRY_HOURS,
                            tx.seconds, tx.clientMSP));
    }

    method CountExistingOrgs() returns (count: nat)
      ensures count == |orgs|
    {
      count := 0;
      var unseen := orgs.Keys;
      while unseen != {}
        invariant count + |unseen| == |orgs.Keys|
        decreases unseen
      {
        var k :| k in unseen;
        unseen := unseen - {k};
        count := count + 1;
      }
    }

    method FindPending(mspID: string) returns (found: bool)
      ensures found <==> HasPending(requests, mspID)
    {
      var unseen := requests.Keys;
      while unseen != {}
        invariant unseen <= requests.Keys
        invariant forall id :: id in requests && id !in unseen ==>
                    !(requests[id].mspID == mspID && requests[id].status == Pending)
        decreases unseen
      {
        var id :| id in unseen;
        if requests[id].mspID == mspID && requests[id].status == Pending {
          return true;
        }
        unseen := unseen - {id};
      }
      return false;
    }

    method RequestJoin(tx: Tx, orgName: string, mspID: string, domain: string,
                       anchorHost: string, anchorPort: int, description: string)
      returns (err: Option<Error>)
      modifies this`requests
      ensures Performs(old(State()), tx,
                       Op.RequestJoin(orgName, mspID, domain, anchorHost, anchorPort, description), err)
    {
      if orgName == "" || mspID == "" || domain == "" {
        return Some(MissingField);
      }
      if anchorPort <= 0 || anchorPort > 65535 {
        return Some(BadPort);
      }
      var pending := FindPending(mspID);
      if pending {
        return Some(PendingExists);
      }
      var totalOrgs := CountExistingOrgs();
      var requiredAck: int := totalOrgs / 2 + 1;
      if requiredAck < 1 {
        requiredAck := 1;
      }
      var req := JoinRequest(tx.txID, orgName, mspID, domain, description, anchorHost, anchorPort,
                             Pending, map[], map[], requiredAck, totalOrgs,
                             tx.seconds, tx.seconds, None, tx.clientMSP);
      requests := requests[tx.txID := req];
      return None;
    }

    method CastVote(tx: Tx, requestID: string, decision: Decision, reason: string)
      returns (err: Option<Error>)
      modifies this`requests, this`votes, this`orgs
      ensures Performs(old(State()), tx, Op.CastVote(requestID, decision, reason), err)
    {
      if requestID !in requests {
        return Some(NotFound);
      }
      var req := requests[requestID];
      if req.status != Pending {
        return Some(NotPending);
      }
      var expiryHours := if policy.Some? then policy.value.expiryHours else DEFAULT_EXPIRY_HOURS;
      var newRequests, newVotes, newOrgs := requests, votes, orgs;
      if IsExpired(req.createdAt, expiryHours, tx) {
        // This write never commits: the transaction fails.
        req := req.(status := Expired, updatedAt := tx.seconds, resolvedAt := Some(tx.seconds));
        newRequests := newRequests[requestID := req];
        return Some(RequestExpired);
      }
      var voter := tx.clientMSP;
      if voter == req.mspID {
        return Some(OwnRequest);
      }
      if voter in req.approvals {
        return Some(DuplicateVote);
      }
      if voter in req.rejections {
        return Some(DuplicateVote);
      }
      newVotes := newVotes[(requestID, voter) := VoteRecord(requestID, voter, decision, reason, tx.seconds)];
      if decision == Approve {
        req := req.(approvals := req.approvals[voter := tx.seconds]);
      } else {
        req := req.(rejections := req.rejections[voter := tx.seconds]);
      }
      req := req.(updatedAt := tx.seconds);
      if |req.approvals| >= req.requiredAck {
        req := req.(status := Approved, resolvedAt := Some(tx.seconds));
        newOrgs := newOrgs[req.mspID := OrgEntry(req.mspID, req.orgName, req.domain, tx.seconds)];
      }
      var maxPossibleApprovals := req.totalOrgs - |req.rejections|;
      if maxPossibleApprovals < req.requiredAck {
        req := req.(status := Rejected, resolvedAt := Some(tx.seconds));
      }
      newRequests := newRequests[requestID := req];
      requests, votes, orgs := newRequests, newVotes, newOrgs;
      return None;
    }

    method UpdatePolicy(tx: Tx, policyType: string, thresholdPct: int, expiryHours: int)
      returns (err: Option<Error>)
      modifies this`policy
      ensures Performs(old(State()), tx, Op.UpdatePolicy(policyType, thresholdPct, expiryHours), err)
    {
      if policyType != "MAJORITY" && policyType != "UNANIMOUS" && policyType != "THRESHOLD" {
        return Some(BadPolicyType);
      }
      if thresholdPct < 1 || thresholdPct > 100 {
        return Some(BadThreshold);
      }
      if expiryHours < 1 {
        return Some(BadExpiry);
      }
      policy := Some(Policy(policyType, thresholdPct, expiryHours, tx.seconds, tx.clientMSP));
      return None;
    }

    method RegisterExistingOrgs(tx: Tx, entries: seq<Org>) returns (err: Option<Error>)
      modifies this`orgs
      ensures Performs(old(State()), tx, RegisterOrgs(entries), err)
    {
      for i := 0 to |entries|
        invariant orgs == RegisterAll(old(orgs), entries[..i], tx.seconds)
      {
        assert entries[..i + 1][..i] == entries[..i];
        orgs := orgs[entries[i].mspID :=
          OrgEntry(entries[i].mspID, entries[i].name, entries[i].domain, tx.seconds)];
      }
      assert entries[..|entries|] == entries;
      err := None;
    }
  }
}
