/** The payment chaincode: transfer intents on the public ledger, their details in private data
    collections.

    As in the governance chaincode, a transaction that returns an error commits nothing. */
module Payments {
  import opened Common

  datatype Status = Pending | Settled | Cancelled | Failed

  /** Times are in milliseconds; `settledAt` is 0 until a transfer is settled. */
  datatype TransferIntent = TransferIntent(
    txID: string, commitmentHash: string, internalRef: string, policyID: string, status: Status,
    createdAt: int, updatedAt: int, settledAt: int, creatorMSP: string)

  /** The fields read from the private JSON; one that is missing or of another type is empty or 0. */
  datatype Fields = Fields(
    internalRef: string, timestamp: int, fromID: string, toID: string, amountVND: int, memo: string)

  datatype TransferDetails = TransferDetails(txID: string, senderMSP: string, fields: Fields)

  /** The value of a transient key: no bytes, bytes that are no JSON object, or an object. */
  datatype Payload = NoBytes | Malformed | Object(fields: Fields)

  /** The client's MSP is unknown when its identity cannot be read. */
  datatype Tx = Tx(txID: string, clientMSP: Option<string>, seconds: int, nanos: int)

  /** Details are kept by collection and transaction ID. */
  datatype Ledger = Ledger(
    intents: map<string, TransferIntent>,
    details: map<(string, string), TransferDetails>)

  datatype Error =
    | NoIdentity | AlreadyExists | BadPrivateData | NoCollection | NotFound | NotPending | NotCreator

  datatype Op =
    | Create(commitmentHash: string, internalRef: string, policyID: string,
             transient: map<string, Payload>, pick: string)
    | Settle(txID: string)
    | Cancel(txID: string)

  /** Nanoseconds are divided as Go does, towards zero; the sum is a 64-bit integer. */
  function Millis(tx: Tx): int {
    WrapInt64(tx.seconds * 1000 + if tx.nanos >= 0 then tx.nanos / 1_000_000 else -(-tx.nanos / 1_000_000))
  }

  /******* Collections *******/

  const INTER_BANK := "collectionInterBank"
  const HIGH_RISK := "collectionHighRisk"
  const INTRA_BANK_PREFIX := "collectionIntraBank_"

  predicate HasSuffix(mspID: string) {
    |mspID| > 3 && mspID[|mspID| - 3..] == "MSP"
  }

  function OrgName(mspID: string): string {
    if HasSuffix(mspID) then mspID[..|mspID| - 3] else mspID
  }

  function IntraBankCollection(mspID: string): string {
    INTRA_BANK_PREFIX + OrgName(mspID)
  }

  /** Two organisations share an intra-bank collection exactly when one is named after the other's
      unsuffixed name plus "MSP". */
  lemma CollectionsClash(a: string, b: string)
    ensures IntraBankCollection(a) == IntraBankCollection(b) <==>
            || a == b
            || (a == b + "MSP" && b != "" && !HasSuffix(b))
            || (b == a + "MSP" && a != "" && !HasSuffix(a))
  {
    assert IntraBankCollection(a)[|INTRA_BANK_PREFIX|..] == OrgName(a);
    assert IntraBankCollection(b)[|INTRA_BANK_PREFIX|..] == OrgName(b);
    assert HasSuffix(a) ==> a == OrgName(a) + "MSP";
    assert HasSuffix(b) ==> b == OrgName(b) + "MSP";
    if a == b + "MSP" && b != "" {
      assert a[|a| - 3..] == "MSP" && a[..|a| - 3] == b;
    }
    if b == a + "MSP" && a != "" {
      assert b[|b| - 3..] == "MSP" && b[..|b| - 3] == a;
    }
  }

  function PolicyCollection(policyID: string, creator: string): string {
    if policyID == "inter_bank_standard" then INTER_BANK
    else if policyID == "high_risk" then HIGH_RISK
    else IntraBankCollection(creator)
  }

  predicate CanPick(transient: map<string, Payload>, name: string) {
    name in transient && transient[name] != NoBytes
  }

  /** Where private data goes: to the policy's collection if the client names it, and otherwise to any
      named collection with data, which map iteration picks. */
  function Destination(transient: map<string, Payload>, wanted: string, pick: string): Option<string> {
    if wanted in transient then (if transient[wanted] != NoBytes then Some(wanted) else None)
    else if CanPick(transient, pick) then Some(pick) else None
  }

  /** `pick` is a choice that iteration over the map can make. */
  ghost predicate PickOk(transient: map<string, Payload>, pick: string) {
    CanPick(transient, pick) || forall name :: !CanPick(transient, name)
  }

  /******* Transactions *******/

  function NewIntent(tx: Tx, op: Op, creator: string): TransferIntent
    requires op.Create?
  {
    TransferIntent(tx.txID, op.commitmentHash, op.internalRef, op.policyID, Pending,
                   Millis(tx), Millis(tx), 0, creator)
  }

  function PrivateError(transient: map<string, Payload>, destination: Option<string>): Option<Error> {
    if destination.None? || destination.value !in transient then None
    else if transient[destination.value] == Malformed then Some(BadPrivateData)
    else if destination.value == "" then Some(NoCollection)
    else None
  }

  function CreateError(l: Ledger, tx: Tx, op: Op): Option<Error>
    requires op.Create?
  {
    if tx.clientMSP.None? then Some(NoIdentity)
    else if tx.txID in l.intents then Some(AlreadyExists)
    else
      PrivateError(op.transient,
                   Destination(op.transient, PolicyCollection(op.policyID, tx.clientMSP.value), op.pick))
  }

  function ResolveError(l: Ledger, tx: Tx, txID: string): Option<Error> {
    if txID !in l.intents then Some(NotFound)
    else if l.intents[txID].status != Pending then Some(NotPending)
    else if tx.clientMSP.None? then Some(NoIdentity)
    else if tx.clientMSP.value != l.intents[txID].creatorMSP then Some(NotCreator)
    else None
  }

  function Refusal(l: Ledger, tx: Tx, op: Op): Option<Error> {
    if op.Create? then CreateError(l, tx, op) else ResolveError(l, tx, op.txID)
  }

  function WithDetails(details: map<(string, string), TransferDetails>, txID: string, creator: string,
                       transient: map<string, Payload>, destination: Option<string>)
    : map<(string, string), TransferDetails>
  {
    if destination.Some? && destination.value in transient && transient[destination.value].Object?
    then details[(destination.value, txID) := TransferDetails(txID, creator, transient[destination.value].fields)]
    else details
  }

  function Step(l: Ledger, tx: Tx, op: Op): Ledger {
    if Refusal(l, tx, op).Some? then l
    else match op
      case Create(_, _, policyID, transient, pick) =>
        var creator := tx.clientMSP.value;
        Ledger(l.intents[tx.txID := NewIntent(tx, op, creator)],
               WithDetails(l.details, tx.txID, creator, transient,
                           Destination(transient, PolicyCollection(policyID, creator), pick)))
      case Settle(txID) =>
        var now := Millis(tx);
        l.(intents := l.intents[txID := l.intents[txID].(status := Settled, updatedAt := now, settledAt := now)])
      case Cancel(txID) =>
        l.(intents := l.intents[txID := l.intents[txID].(status := Cancelled, updatedAt := Millis(tx))])
  }

  /******* Runs *******/

  datatype Event = Event(tx: Tx, op: Op)

  const EMPTY := Ledger(map[], map[])

  function Run(events: seq<Event>): Ledger {
    if events == [] then EMPTY
    else Step(Run(events[..|events| - 1]), events[|events| - 1].tx, events[|events| - 1].op)
  }

  /** The key an event writes if it commits. */
  function Target(e: Event): string {
    if e.op.Create? then e.tx.txID else e.op.txID
  }

  predicate Commits(l: Ledger, e: Event) {
    Refusal(l, e.tx, e.op).None?
  }

  /** The values committed under a key, as the peers' history index keeps them. */
  function History(events: seq<Event>, key: string): seq<TransferIntent> {
    if events == [] then []
    else
      var prefix, last := events[..|events| - 1], events[|events| - 1];
      if Commits(Run(prefix), last) && Target(last) == key && key in Run(events).intents
      then History(prefix, key) + [Run(events).intents[key]]
      else History(prefix, key)
  }

  /** The only shapes a history has. */
  predicate HistoryOk(h: seq<TransferIntent>, key: string) {
    && |h| <= 2
    && (|h| > 0 ==> h[0].status == Pending && h[0].txID == key && h[0].updatedAt == h[0].createdAt && h[0].settledAt == 0)
    && (|h| == 2 ==>
          || h[1] == h[0].(status := Settled, updatedAt := h[1].updatedAt, settledAt := h[1].updatedAt)
          || h[1] == h[0].(status := Cancelled, updatedAt := h[1].updatedAt))
  }

  /** Over every run, each key's history is a pending intent, possibly followed by the same intent
      settled or cancelled; the current value is its last entry. */
  lemma {:induction false} TransferHistory(events: seq<Event>, key: string)
    ensures HistoryOk(History(events, key), key)
    ensures key in Run(events).intents <==> History(events, key) != []
    ensures key in Run(events).intents ==> Run(events).intents[key] == History(events, key)[|History(events, key)| - 1]
  {
    if events != [] {
      TransferHistory(events[..|events| - 1], key);
    }
  }

  /** Every transaction that ever touched a transfer was its creator's. */
  lemma {:induction false} OnlyTheCreatorActs(events: seq<Event>, i: nat, key: string)
    requires i < |events| && Commits(Run(events[..i]), events[i]) && Target(events[i]) == key
    ensures key in Run(events).intents
    ensures events[i].tx.clientMSP == Some(Run(events).intents[key].creatorMSP)
    decreases |events|
  {
    var n := |events| - 1;
    if i < n {
      assert events[..n][..i] == events[..i];
      OnlyTheCreatorActs(events[..n], i, key);
    }
  }

  /** At most one of all the attempts to settle or cancel a transfer ever commits. */
  lemma {:induction false} ResolvedOnce(events: seq<Event>, i: nat, j: nat)
    requires i < j < |events|
    requires Commits(Run(events[..i]), events[i]) && !events[i].op.Create?
    requires Target(events[j]) == Target(events[i])
    ensures !Commits(Run(events[..j]), events[j])
  {
    assert events[..j][..i] == events[..i];
    StaysResolved(events[..j], i);
  }

  lemma {:induction false} StaysResolved(events: seq<Event>, i: nat)
    requires i < |events|
    requires Commits(Run(events[..i]), events[i]) && !events[i].op.Create?
    ensures Target(events[i]) in Run(events).intents
    ensures Run(events).intents[Target(events[i])].status != Pending
    decreases |events|
  {
    var n := |events| - 1;
    if i < n {
      assert events[..n][..i] == events[..i];
      StaysResolved(events[..n], i);
    }
  }

  /** Private details belong to a public intent of the same transaction and its creator, and to one
      collection only. */
  ghost predicate DetailsOk(l: Ledger) {
    && (forall c, k :: (c, k) in l.details ==>
          && k in l.intents && l.details[(c, k)].txID == k && l.intents[k].txID == k
          && l.intents[k].creatorMSP == l.details[(c, k)].senderMSP)
    && (forall c, d, k :: (c, k) in l.details && (d, k) in l.details ==> c == d)
  }

  lemma {:induction false} DetailsHavePublicIntents(events: seq<Event>)
    ensures DetailsOk(Run(events))
  {
    if events != [] {
      var prefix, last := events[..|events| - 1], events[|events| - 1];
      DetailsHavePublicIntents(prefix);
      StepKeepsDetails(Run(prefix), last);
    }
  }

  lemma StepKeepsDetails(l: Ledger, e: Event)
    requires DetailsOk(l)
    ensures DetailsOk(Step(l, e.tx, e.op))
  {
    var m := Step(l, e.tx, e.op);
    if e.op.Create? && Commits(l, e) {
      var k := e.tx.txID;
      forall c | (c, k) in m.details
        ensures Destination(e.op.transient, PolicyCollection(e.op.policyID, e.tx.clientMSP.value), e.op.pick) == Some(c)
      {
        assert (c, k) !in l.details;
      }
    }
  }

  /** A client that names the policy's collection has its data there and nowhere else, whatever the
      iteration order; one that sends one unreadable collection gets no public intent either. */
  lemma NamedCollectionWins(l: Ledger, tx: Tx, op: Op, other: string)
    requires DetailsOk(l)
    requires op.Create? && tx.clientMSP.Some? && tx.txID !in l.intents
    requires PolicyCollection(op.policyID, tx.clientMSP.value) in op.transient
    ensures var wanted := PolicyCollection(op.policyID, tx.clientMSP.value);
            var m := Step(l, tx, op);
            && Step(l, tx, op.(pick := other)) == m
            && (op.transient[wanted].Malformed? ==> m == l)
            && (op.transient[wanted].Object? ==>
                  forall c :: (c, tx.txID) in m.details <==> c == wanted)
            && (op.transient[wanted].NoBytes? ==> m.details == l.details && tx.txID in m.intents)
  {
    assert forall c :: (c, tx.txID) !in l.details;
    assert PolicyCollection(op.policyID, tx.clientMSP.value) != "";
  }

  /******* What the transactions of a run do *******/

  predicate CommittedAt(events: seq<Event>, i: nat) {
    i < |events| && Commits(Run(events[..i]), events[i])
  }

  /** Who may do what: any client with an identity creates under a new transaction ID, unless its private data
      cannot be read; the creator alone settles or cancels, and while the transfer is pending. */
  lemma CommitsExactly(events: seq<Event>, e: Event)
    ensures e.op.Create? && (forall name :: name in e.op.transient ==> name != "" && !e.op.transient[name].Malformed?)
            ==> (Commits(Run(events), e) <==> e.tx.clientMSP.Some? && e.tx.txID !in Run(events).intents)
    ensures !e.op.Create?
            ==> (Commits(Run(events), e) <==>
                 && e.op.txID in Run(events).intents
                 && Run(events).intents[e.op.txID].status == Pending
                 && e.tx.clientMSP == Some(Run(events).intents[e.op.txID].creatorMSP))
  {
  }

  /** The time of a transaction in milliseconds, rounded down, for every time within 64 bits. */
  lemma MillisOfNanos(tx: Tx)
    requires 0 <= tx.nanos < 1_000_000_000 && 0 <= tx.seconds < 1_000_000_000_000
    ensures Millis(tx) == (tx.seconds * 1_000_000_000 + tx.nanos) / 1_000_000
  {
  }

  ghost predicate Leaves(t: TransferIntent, e: Event) {
    match e.op
    case Create(hash, ref, policyID, _, _) =>
      && t.commitmentHash == hash && t.internalRef == ref && t.policyID == policyID
      && Some(t.creatorMSP) == e.tx.clientMSP && t.createdAt == Millis(e.tx)
    case Settle(_) => t.status == Settled && t.updatedAt == t.settledAt == Millis(e.tx)
    case Cancel(_) => t.status == Cancelled && t.updatedAt == Millis(e.tx) && t.settledAt == 0
  }

  /** What a committed transaction does to its transfer lasts to the end of the run. */
  lemma {:induction false} EffectsLast(events: seq<Event>, i: nat)
    requires CommittedAt(events, i)
    ensures Target(events[i]) in Run(events).intents
    ensures Leaves(Run(events).intents[Target(events[i])], events[i])
    decreases |events|
  {
    var n := |events| - 1;
    if i < n {
      assert events[..n][..i] == events[..i];
      EffectsLast(events[..n], i);
      if !events[i].op.Create? { StaysResolved(events[..n], i); }
    } else {
      assert events[..n] == events[..i];
      if !events[i].op.Create? { PendingUnsettled(events[..n], Target(events[i])); }
    }
  }

  lemma PendingUnsettled(events: seq<Event>, key: string)
    requires key in Run(events).intents && Run(events).intents[key].status == Pending
    ensures Run(events).intents[key].settledAt == 0
  {
    TransferHistory(events, key);
  }

  lemma CommittedBefore(events: seq<Event>, i: nat)
    requires events != [] && CommittedAt(events[..|events| - 1], i)
    ensures CommittedAt(events, i) && events[i] == events[..|events| - 1][i]
  {
    assert events[..|events| - 1][..i] == events[..i];
  }

  /** And a transfer is created, settled or cancelled by nothing else. */
  lemma {:induction false} OnlyByTransaction(events: seq<Event>, key: string)
    requires key in Run(events).intents
    ensures exists i: nat :: CommittedAt(events, i) && Target(events[i]) == key && events[i].op.Create?
    ensures Run(events).intents[key].status == Settled ==> exists i: nat :: CommittedAt(events, i) && events[i].op == Settle(key)
    ensures Run(events).intents[key].status == Cancelled ==> exists i: nat :: CommittedAt(events, i) && events[i].op == Cancel(key)
  {
    var n := |events| - 1;
    var init, e := events[..n], events[n];
    if Commits(Run(init), e) && Target(e) == key {
      assert CommittedAt(events, n);
    }
    if key in Run(init).intents {
      OnlyByTransaction(init, key);
      forall i: nat | CommittedAt(init, i)
        ensures CommittedAt(events, i) && events[i] == init[i]
      {
        CommittedBefore(events, i);
      }
    }
  }

  /** The organisation's name behind an MSP ID: without "MSP" at the end, unless nothing else is left. */
  ghost predicate NamedAfter(mspID: string, org: string) {
    || (org != "" && mspID == org + "MSP")
    || (org == mspID && forall other: string :: mspID == other + "MSP" ==> other == "")
  }

  lemma OrgNameUnsuffixed(mspID: string, org: string)
    requires NamedAfter(mspID, org)
    ensures OrgName(mspID) == org
  {
    if org != "" && mspID == org + "MSP" {
      assert mspID[|mspID| - 3..] == "MSP" && mspID[..|mspID| - 3] == org;
    } else if HasSuffix(mspID) {
      assert mspID == mspID[..|mspID| - 3] + "MSP";
    }
  }

  /** The collection each policy asks for. */
  ghost predicate AsksFor(policyID: string, mspID: string, collection: string) {
    match policyID
    case "inter_bank_standard" => collection == "collectionInterBank"
    case "high_risk" => collection == "collectionHighRisk"
    case _ => exists org :: NamedAfter(mspID, org) && collection == "collectionIntraBank_" + org
  }

  lemma PolicyAsksFor(policyID: string, mspID: string, collection: string)
    ensures AsksFor(policyID, mspID, collection) <==> PolicyCollection(policyID, mspID) == collection
  {
    assert NamedAfter(mspID, OrgName(mspID)) by {
      if HasSuffix(mspID) {
        assert mspID == OrgName(mspID) + "MSP";
      } else {
        forall other: string | mspID == other + "MSP" ensures other == "" {
          assert mspID[|mspID| - 3..] == "MSP";
        }
      }
    }
    forall org | NamedAfter(mspID, org) ensures org == OrgName(mspID) {
      OrgNameUnsuffixed(mspID, org);
    }
  }

  /** Private data under the collection that the policy asks for is found there at the end of every run, with the
      creator's name on it, and nowhere else, whatever else the client sent. */
  lemma {:induction false} DataFollowsPolicy(events: seq<Event>, i: nat, collection: string)
    requires CommittedAt(events, i) && events[i].op.Create?
    requires AsksFor(events[i].op.policyID, events[i].tx.clientMSP.value, collection)
    requires collection in events[i].op.transient && events[i].op.transient[collection].Object?
    ensures forall c :: (c, events[i].tx.txID) in Run(events).details <==> c == collection
    ensures Run(events).details[(collection, events[i].tx.txID)]
            == TransferDetails(events[i].tx.txID, events[i].tx.clientMSP.value, events[i].op.transient[collection].fields)
    decreases |events|
  {
    var n := |events| - 1;
    if i < n {
      assert events[..n][..i] == events[..i];
      DataFollowsPolicy(events[..n], i, collection);
      EffectsLast(events[..n], i);
    } else {
      assert events[..n] == events[..i];
      DetailsHavePublicIntents(events[..n]);
      var e := events[i];
      PolicyAsksFor(e.op.policyID, e.tx.clientMSP.value, collection);
      NamedCollectionWins(Run(events[..n]), e.tx, e.op, e.op.pick);
    }
  }

  class PaymentContract {
    var intents: map<string, TransferIntent>
    var details: map<(string, string), TransferDetails>

    ghost function State(): Ledger
      reads this
    {
      Ledger(intents, details)
    }

    ghost predicate Performs(before: Ledger, tx: Tx, op: Op, err: Option<Error>)
      reads this
    {
      err == Refusal(before, tx, op) && State() == Step(before, tx, op)
    }

    constructor ()
      ensures State() == EMPTY
    {
      intents, details := map[], map[];
    }

    method CreateTransferIntent(tx: Tx, commitmentHash: string, internalRef: string, policyID: string,
                                transient: map<string, Payload>)
      returns (err: Option<Error>, pick: string)
      modifies this
      ensures PickOk(transient, pick)
      ensures Performs(old(State()), tx, Create(commitmentHash, internalRef, policyID, transient, pick), err)
    {
      pick := "";
      var name, found := Iterate(transient);
      if found {
        pick := name;
      }
      if tx.clientMSP.None? {
        return Some(NoIdentity), pick;
      }
      var creator := tx.clientMSP.value;
      if tx.txID in intents {
        return Some(AlreadyExists), pick;
      }
      var now := Millis(tx);
      var intent := TransferIntent(tx.txID, commitmentHash, internalRef, policyID, Pending, now, now, 0, creator);
      err := ProcessPrivateData(tx.txID, creator, policyID, transient, pick);
      if err.Some? {
        return;
      }
      intents := intents[tx.txID := intent];
    }

    /** The first entry with data that iteration over the map meets, if there is one. */
    method Iterate(transient: map<string, Payload>) returns (name: string, found: bool)
      ensures found ==> CanPick(transient, name)
      ensures !found ==> forall n :: !CanPick(transient, n)
    {
      name, found := "", false;
      var unseen := transient.Keys;
      while unseen != {}
        invariant forall n :: CanPick(transient, n) ==> n in unseen
        decreases unseen
      {
        var n :| n in unseen;
        if n in transient && transient[n] != NoBytes {
          return n, true;
        }
        unseen := unseen - {n};
      }
    }

    method ProcessPrivateData(txID: string, creator: string, policyID: string, transient: map<string, Payload>,
                              pick: string)
      returns (err: Option<Error>)
      requires PickOk(transient, pick)
      modifies this`details
      ensures var destination := Destination(transient, PolicyCollection(policyID, creator), pick);
              && err == PrivateError(transient, destination)
              && details == if err.Some? then old(details)
                            else WithDetails(old(details), txID, creator, transient, destination)
    {
      var collection;
      if policyID == "inter_bank_standard" {
        collection := INTER_BANK;
      } else if policyID == "high_risk" {
        collection := HIGH_RISK;
      } else {
        collection := IntraBankCollection(creator);
      }
      var data := NoBytes;
      if collection in transient {
        data := transient[collection];
      } else if CanPick(transient, pick) {
        data, collection := transient[pick], pick;
      }
      if data == NoBytes {
        return None;
      }
      if data == Malformed {
        return Some(BadPrivateData);
      }
      if collection == "" {
        return Some(NoCollection);
      }
      details := details[(collection, txID) := TransferDetails(txID, creator, data.fields)];
      return None;
    }

    method SettleTransfer(tx: Tx, txID: string) returns (err: Option<Error>)
      modifies this`intents
      ensures Performs(old(State()), tx, Settle(txID), err)
    {
      if txID !in intents {
        return Some(NotFound);
      }
      var intent := intents[txID];
      if intent.status != Pending {
        return Some(NotPending);
      }
      if tx.clientMSP.None? {
        return Some(NoIdentity);
      }
      if tx.clientMSP.value != intent.creatorMSP {
        return Some(NotCreator);
      }
      var now := Millis(tx);
      intent := intent.(status := Settled, updatedAt := now, settledAt := now);
      intents := intents[txID := intent];
      return None;
    }

    method CancelTransfer(tx: Tx, txID: string) returns (err: Option<Error>)
      modifies this`intents
      ensures Performs(old(State()), tx, Cancel(txID), err)
    {
      if txID !in intents {
        return Some(NotFound);
      }
      var intent := intents[txID];
      if intent.status != Pending {
        return Some(NotPending);
      }
      if tx.clientMSP.None? {
        return Some(NoIdentity);
      }
      if tx.clientMSP.value != intent.creatorMSP {
        return Some(NotCreator);
      }
      var now := Millis(tx);
      intent := intent.(status := Cancelled, updatedAt := now);
      intents := intents[txID := intent];
      return None;
    }
  }
}
