/** The gossip protocol's guarantees told by the events of a run alone: who was asked to cast what, and when. */
module NetworkEvents {
  import opened Common
  import opened NodeManager
  import opened Network
  import opened NetworkProperties

  /** The organisations that cast this decision on a request in a run. */
  ghost function Casters(s: Net, es: seq<Event>, id: string, approve: bool): set<string> {
    if es == [] then {}
    else
      var init, e := es[..|es| - 1], es[|es| - 1];
      Casters(s, init, id, approve)
      + if e.CastAt? && Enabled(Run(s, init), e) && e.id == id && e.approve == approve then {e.at} else {}
  }

  lemma {:induction false} RunAppend(s: Net, es: seq<Event>, fs: seq<Event>)
    ensures Run(s, es + fs) == Run(Run(s, es), fs)
  {
    if fs == [] {
      assert es + fs == es;
    } else {
      RunAppend(s, es, fs[..|fs| - 1]);
      assert (es + fs)[..|es + fs| - 1] == es + fs[..|fs| - 1];
    }
  }

  lemma {:induction false} CastersAppend(s: Net, es: seq<Event>, fs: seq<Event>, id: string, approve: bool)
    ensures Casters(s, es, id, approve) <= Casters(s, es + fs, id, approve)
  {
    if fs == [] {
      assert es + fs == es;
    } else {
      CastersAppend(s, es, fs[..|fs| - 1], id, approve);
      assert (es + fs)[..|es + fs| - 1] == es + fs[..|fs| - 1];
    }
  }

  lemma {:induction false} IdentityStays(s: Net, es: seq<Event>)
    ensures Run(s, es).nodes.Keys == s.nodes.Keys
    ensures forall m :: m in s.nodes ==>
              Run(s, es).nodes[m].orgName == s.nodes[m].orgName && Run(s, es).nodes[m].role == s.nodes[m].role
  {
    if es != [] {
      var t, e := Run(s, es[..|es| - 1]), es[|es| - 1];
      IdentityStays(s, es[..|es| - 1]);
      if Enabled(t, e) { NodeAfterIdentity(t, e); }
    }
  }

  lemma NodeAfterIdentity(s: Net, e: Event)
    requires Enabled(s, e)
    ensures NodeAfter(s, e).orgName == s.nodes[e.at].orgName && NodeAfter(s, e).role == s.nodes[e.at].role
  {
  }

  /******* Votes are what was asked for *******/

  /** Event i of a run is an accepted request to cast this very vote. */
  ghost predicate CastsAt(s: Net, es: seq<Event>, i: int, id: string, v: Vote) {
    && 0 <= i < |es| && es[i] == CastAt(v.voterMSP, id, v.approve, v.timestamp) && Enabled(Run(s, es[..i]), es[i])
    && v.voterMSP in s.nodes && v.voterOrg == s.nodes[v.voterMSP].orgName
  }

  /** A vote is on record exactly if a node was asked to cast it: by that node, with that decision, then. */
  lemma {:induction false} BallotsAreCasts(s0: Net, es: seq<Event>, id: string, v: Vote)
    requires Init(s0)
    ensures Ballot(id, v) in Run(s0, es).history.ballots <==> exists i :: CastsAt(s0, es, i, id, v)
  {
    if es != [] {
      var init := es[..|es| - 1];
      BallotsAreCasts(s0, init, id, v);
      LastCast(s0, es, id, v);
      if i :| CastsAt(s0, init, i, id, v) {
        assert init[..i] == es[..i];
        assert CastsAt(s0, es, i, id, v);
      }
      if i :| CastsAt(s0, es, i, id, v) {
        if i < |init| {
          assert init[..i] == es[..i];
          assert CastsAt(s0, init, i, id, v);
        }
      }
    }
  }

  /** What the last event adds to the record. */
  lemma LastCast(s0: Net, es: seq<Event>, id: string, v: Vote)
    requires Init(s0) && es != []
    ensures Ballot(id, v) in Run(s0, es).history.ballots
            <==> Ballot(id, v) in Run(s0, es[..|es| - 1]).history.ballots || CastsAt(s0, es, |es| - 1, id, v)
  {
    var s, e := Run(s0, es[..|es| - 1]), es[|es| - 1];
    InitInv(s0);
    RunKeepsInv(s0, es[..|es| - 1]);
    IdentityStays(s0, es[..|es| - 1]);
    if Enabled(s, e) && e.CastAt? {
      NodeName(s, e.at);
      assert OwnVote(s.nodes[e.at], e.approve, e.now) == Vote(s0.nodes[e.at].orgName, e.at, e.approve, e.now);
    }
  }

  lemma NodeName(s: Net, m: string)
    requires Inv(s) && m in s.nodes
    ensures s.nodes[m].mspID == m
  {
    assert NodeOk(s.history, m, s.nodes[m]);
  }

  lemma {:induction false} CastersAreOnRecord(s0: Net, es: seq<Event>, id: string, approve: bool, org: string)
    requires Init(s0)
    ensures org in Casters(s0, es, id, approve)
            <==> exists v :: Ballot(id, v) in Run(s0, es).history.ballots && v.approve == approve && v.voterMSP == org
  {
    if es != [] {
      var init, e := es[..|es| - 1], es[|es| - 1];
      CastersAreOnRecord(s0, init, id, approve, org);
      forall v
        ensures Ballot(id, v) in Run(s0, es).history.ballots
                <==> Ballot(id, v) in Run(s0, init).history.ballots || CastsAt(s0, es, |es| - 1, id, v)
      {
        LastCast(s0, es, id, v);
      }
      if e.CastAt? && Enabled(Run(s0, init), e) && e.id == id && e.approve == approve && e.at == org {
        IdentityStays(s0, init);
        var v := Vote(s0.nodes[org].orgName, org, approve, e.now);
        assert CastsAt(s0, es, |es| - 1, id, v);
      }
    }
  }

  /** The approvals that count are those asked for, the orderer's left out once there are peers. */
  lemma ApproversAreCasters(s0: Net, es: seq<Event>, id: string)
    requires Init(s0) && id in Run(s0, es).history.origin
    ensures var h := Run(s0, es).history;
            Approvers(h, id) == if h.origin[id].totalPeers == 0 then Casters(s0, es, id, true)
                                else Casters(s0, es, id, true) - {"OrdererMSP"}
  {
    var h := Run(s0, es).history;
    forall p
      ensures p in Approvers(h, id)
              <==> p in Casters(s0, es, id, true) && (h.origin[id].totalPeers == 0 || p != "OrdererMSP")
    {
      CastersAreOnRecord(s0, es, id, true, p);
      if p in Approvers(h, id) {
        var b :| b in h.ballots && b.id == id && Counts(h.origin[id].totalPeers, b.vote) && b.vote.voterMSP == p;
        assert b == Ballot(id, b.vote);
      }
    }
  }

  lemma RejectersAreCasters(s0: Net, es: seq<Event>, id: string)
    requires Init(s0)
    ensures Rejecters(Run(s0, es).history, id) == Casters(s0, es, id, false)
  {
    var h := Run(s0, es).history;
    forall p
      ensures p in Rejecters(h, id) <==> p in Casters(s0, es, id, false)
    {
      CastersAreOnRecord(s0, es, id, false, p);
      if p in Rejecters(h, id) {
        var b :| b in h.ballots && b.id == id && !b.vote.approve && b.vote.voterMSP == p;
        assert b == Ballot(id, b.vote);
      }
    }
  }

  /** When a node accepts the request to vote: while its copy is pending and it has not cast before. */
  lemma CastsAccepted(s0: Net, es: seq<Event>, at: string, id: string, approve: bool, now: int)
    requires Init(s0) && at in s0.nodes
    ensures Enabled(Run(s0, es), CastAt(at, id, approve, now))
            <==> && Holds(Run(s0, es), at, id) && CopyAt(Run(s0, es), at, id).status == Pending
                 && at !in Casters(s0, es, id, true) && at !in Casters(s0, es, id, false)
  {
    var s := Run(s0, es);
    InitInv(s0);
    RunKeepsInv(s0, es);
    IdentityStays(s0, es);
    CastersAreOnRecord(s0, es, id, true, at);
    CastersAreOnRecord(s0, es, id, false, at);
    assert NodeOk(s.history, at, s.nodes[at]);
    if Holds(s, at, id) { VotedIsRecorded(s.history, at, s.nodes[at], id); }
  }

  lemma VotedIsRecorded(h: History, m: string, n: Node, id: string)
    requires id in n.requests && CopyOk(h, id, n.requests[id]) && OwnVoteKept(h, m, n.requests[id])
    ensures HasVoted(n.requests[id].votes, m) <==> exists v :: Ballot(id, v) in h.ballots && v.voterMSP == m
  {
    if v :| v in n.requests[id].votes && v.voterMSP == m {
      assert Ballot(id, v) in h.ballots;
    }
  }

  /** What gossip carries: the votes on record, and the requests as they were submitted. */
  lemma {:induction false} SentIsRecorded(s0: Net, es: seq<Event>)
    requires Init(s0)
    ensures forall id, v :: VoteMsg(id, v) in Run(s0, es).sent <==> Ballot(id, v) in Run(s0, es).history.ballots
    ensures forall r :: RequestMsg(r) in Run(s0, es).sent
              <==> r.id in Run(s0, es).history.origin && Run(s0, es).history.origin[r.id] == r
  {
    if es != [] {
      SentIsRecorded(s0, es[..|es| - 1]);
      InitInv(s0);
      RunKeepsInv(s0, es[..|es| - 1]);
    }
  }

  /** A vote is sent exactly if a node was asked to cast it. */
  lemma SentVotesAreCasts(s0: Net, es: seq<Event>, id: string, v: Vote)
    requires Init(s0)
    ensures VoteMsg(id, v) in Run(s0, es).sent <==> exists i :: CastsAt(s0, es, i, id, v)
  {
    SentIsRecorded(s0, es);
    BallotsAreCasts(s0, es, id, v);
  }

  /******* Requests are what was submitted *******/

  /** Event i of a run submits a request under this ID. */
  ghost predicate SubmitsAt(s: Net, es: seq<Event>, i: int, id: string) {
    0 <= i < |es| && es[i].SubmitAt? && es[i].id == id && Enabled(Run(s, es[..i]), es[i])
  }

  /** A request is on record exactly if it was submitted. */
  lemma {:induction false} OriginsAreSubmissions(s0: Net, es: seq<Event>, id: string)
    requires Init(s0)
    ensures id in Run(s0, es).history.origin <==> exists i :: SubmitsAt(s0, es, i, id)
  {
    if es != [] {
      var init, e := es[..|es| - 1], es[|es| - 1];
      OriginsAreSubmissions(s0, init, id);
      assert forall i :: 0 <= i < |init| ==> init[..i] == es[..i];
      if Enabled(Run(s0, init), e) && e.SubmitAt? && e.id == id {
        assert SubmitsAt(s0, es, |es| - 1, id);
      }
      if i :| SubmitsAt(s0, init, i, id) {
        assert SubmitsAt(s0, es, i, id);
      }
      if i :| SubmitsAt(s0, es, i, id) {
        if i < |init| { assert SubmitsAt(s0, init, i, id); }
      }
    }
  }

  /** It says what was applied for, and its number of peers is that of the node that took it, when it took it. */
  lemma SubmissionOnRecord(s0: Net, es: seq<Event>, i: int, id: string)
    requires Init(s0) && SubmitsAt(s0, es, i, id)
    ensures var e := es[i];
            && id in Run(s0, es).history.origin
            && Run(s0, es).history.origin[id]
               == JoinRequest(id, e.application.orgName, e.application.mspID, e.application.domain,
                              e.application.mgmtAddr, Pending, [], |Run(s0, es[..i]).nodes[e.at].peers|, e.now, None)
  {
    var rest := es[i + 1..];
    assert es == es[..i] + [es[i]] + rest;
    RunOn(s0, es[..i], es[i], rest);
    RunGrows(Run(s0, es[..i] + [es[i]]), rest);
  }

  /******* The majority, by arithmetic *******/

  /** The approvals in a copy, the orderer's left out. */
  ghost function PeersApproving(c: JoinRequest): set<string> {
    set v | v in c.votes && v.approve && v.voterMSP != "OrdererMSP" :: v.voterMSP
  }

  /** In every reachable state a copy made among n peers has left pending if and only if more than half of n
      approve in it, not counting the orderer; among none, if and only if anybody approves in it. */
  lemma ResolvedByMajority(s0: Net, es: seq<Event>, m: string, id: string)
    requires Init(s0) && Holds(Run(s0, es), m, id)
    ensures var c := CopyAt(Run(s0, es), m, id);
            && c.totalPeers >= 0
            && (c.status != Pending <==>
                  if c.totalPeers > 0 then 2 * |PeersApproving(c)| > c.totalPeers
                  else exists v :: v in c.votes && v.approve)
  {
    var s := Run(s0, es);
    InitInv(s0);
    RunKeepsInv(s0, es);
    assert NodeOk(s.history, m, s.nodes[m]) && CopyOk(s.history, id, CopyAt(s, m, id));
    MajorityArithmetic(CopyAt(s, m, id));
  }

  lemma MajorityArithmetic(c: JoinRequest)
    requires DistinctVoters(c.votes) && c.totalPeers >= 0
    ensures MajorityReached(c) <==>
              if c.totalPeers > 0 then 2 * |PeersApproving(c)| > c.totalPeers else exists v :: v in c.votes && v.approve
  {
    CountIsNumberOfVoters(c.totalPeers, c.votes);
    var counted := CountedVoters(c.totalPeers, c.votes);
    if c.totalPeers > 0 {
      assert counted == PeersApproving(c);
    } else if v :| v in c.votes && v.approve {
      assert v.voterMSP in counted && |counted| >= 1;
    } else {
      assert counted == {};
    }
  }

  /** Enough approvals were asked for. */
  ghost predicate MajorityCast(s0: Net, es: seq<Event>, id: string, peers: int) {
    if peers > 0 then 2 * |Casters(s0, es, id, true) - {"OrdererMSP"}| > peers
    else Casters(s0, es, id, true) != {}
  }

  lemma AdmittedMeansMajorityCast(s0: Net, es: seq<Event>, id: string)
    requires Init(s0) && id in Run(s0, es).history.origin
    ensures Run(s0, es).history.origin[id].totalPeers >= 0
    ensures Admitted(Run(s0, es).history, id) <==> MajorityCast(s0, es, id, Run(s0, es).history.origin[id].totalPeers)
  {
    InitInv(s0);
    RunKeepsInv(s0, es);
    ApproversAreCasters(s0, es, id);
  }

  /** A copy that was ever approved, anywhere: a majority had been asked to approve, and did. */
  lemma ApprovedByMajority(s0: Net, es: seq<Event>, m: string, id: string)
    requires Init(s0) && Holds(Run(s0, es), m, id) && CopyAt(Run(s0, es), m, id).status != Pending
    ensures MajorityCast(s0, es, id, CopyAt(Run(s0, es), m, id).totalPeers)
  {
    var s := Run(s0, es);
    InitInv(s0);
    RunKeepsInv(s0, es);
    assert NodeOk(s.history, m, s.nodes[m]) && CopyOk(s.history, id, CopyAt(s, m, id));
    MajorityIsReal(s.history, id, CopyAt(s, m, id));
    AdmittedMeansMajorityCast(s0, es, id);
  }

  /** Convergence of the network: whatever else happens, in any order and however often, a peer that was handed
      each vote at least once has approved the request if and only if a majority of organisations was asked to
      approve it and did. So all such peers agree. */
  lemma NetworkConverges(s0: Net, before: seq<Event>, es: seq<Event>, m: string, id: string)
    requires Init(s0)
    requires Holds(Run(s0, before), m, id) && Run(s0, before).nodes[m].role == Peer
    requires CaughtUp(Run(s0, before), es, m, id)
    ensures var t := Run(s0, before + es);
            && Holds(t, m, id)
            && CopyAt(t, m, id).status
               == (if MajorityCast(s0, before + es, id, CopyAt(t, m, id).totalPeers) then Approved else Pending)
  {
    var t := Run(s0, before + es);
    RunAppend(s0, before, es);
    CaughtUpCopy(s0, before, es, m, id);
    InitInv(s0);
    RunKeepsInv(s0, before + es);
    assert NodeOk(t.history, m, t.nodes[m]) && CopyOk(t.history, id, CopyAt(t, m, id));
    AdmittedMeansMajorityCast(s0, before + es, id);
  }

  /** Once half of the electors have been asked to reject and did, no node ever approves, however the run goes
      on, as long as nobody approves but electors and the orderer. */
  lemma Blocking(s0: Net, before: seq<Event>, es: seq<Event>, id: string, electors: set<string>, m: string)
    requires Init(s0) && id in Run(s0, before).history.origin
    requires |electors| == Run(s0, before).history.origin[id].totalPeers > 0
    requires 2 * |electors * Casters(s0, before, id, false)| >= |electors|
    requires Casters(s0, before + es, id, true) <= electors + {"OrdererMSP"}
    requires Holds(Run(s0, before + es), m, id)
    ensures CopyAt(Run(s0, before + es), m, id).status == Pending
  {
    var s := Run(s0, before);
    InitInv(s0);
    RunKeepsInv(s0, before);
    RunAppend(s0, before, es);
    RunGrows(s, es);
    RejectersAreCasters(s0, before, id);
    ApproversAreCasters(s0, before + es, id);
    BallotsBlock(s, es, id, electors, m);
  }

  /******* Each approval flow ends once *******/

  ghost predicate IsRunning(n: Node, id: string) {
    exists k :: 0 <= k < |n.running| && n.running[k].id == id
  }

  /** Event i of a run ends the flow of this request at m. */
  ghost predicate EndsAt(s: Net, es: seq<Event>, i: int, m: string, id: string) {
    && 0 <= i < |es| && es[i].FinishAt? && es[i].at == m && Enabled(Run(s, es[..i]), es[i])
    && Run(s, es[..i]).nodes[m].running[es[i].k].id == id
  }

  /** Requests whose flow ended at a node in a run. */
  ghost function Ended(s: Net, es: seq<Event>, m: string): set<string> {
    if es == [] then {}
    else
      var t, e := Run(s, es[..|es| - 1]), es[|es| - 1];
      Ended(s, es[..|es| - 1], m)
      + if e.FinishAt? && e.at == m && Enabled(t, e) then {t.nodes[m].running[e.k].id} else {}
  }

  lemma {:induction false} EndedByEvent(s: Net, es: seq<Event>, m: string, id: string)
    ensures id in Ended(s, es, m) <==> exists i :: EndsAt(s, es, i, m, id)
  {
    if es != [] {
      var init := es[..|es| - 1];
      EndedByEvent(s, init, m, id);
      assert forall i :: 0 <= i < |init| ==> init[..i] == es[..i] && init[i] == es[i];
      if i :| EndsAt(s, init, i, m, id) {
        assert EndsAt(s, es, i, m, id);
      }
      if i :| EndsAt(s, es, i, m, id) {
        if i < |init| { assert EndsAt(s, init, i, m, id); }
      }
      if id in Ended(s, es, m) && id !in Ended(s, init, m) {
        assert EndsAt(s, es, |init|, m, id);
      }
    }
  }

  ghost predicate DistinctFlows(n: Node) {
    forall i, j :: 0 <= i < j < |n.running| ==> n.running[i].id != n.running[j].id
  }

  /** The flows started are those that run and those that ended, and none is both. */
  ghost predicate Accounted(n: Node, ended: set<string>) {
    && DistinctFlows(n)
    && (forall id :: id in n.started <==> IsRunning(n, id) || id in ended)
    && (forall id :: IsRunning(n, id) ==> id !in ended)
  }

  lemma SaveAccounted(n: Node, r: JoinRequest, now: int, ended: set<string>)
    requires Accounted(n, ended) && FlowsOk(n)
    requires r.id in n.requests && r.status == n.requests[r.id].status
    ensures Accounted(Save(n, r, now), ended)
  {
    var n' := Save(n, r, now);
    if n'.running != n.running {
      var k := |n.running|;
      assert r.id !in n.started;
      assert forall i :: 0 <= i < k ==> n'.running[i] == n.running[i];
      forall id
        ensures IsRunning(n', id) <==> IsRunning(n, id) || id == r.id
      {
        if id == r.id { assert n'.running[k].id == id; }
        if i :| 0 <= i < |n.running| && n.running[i].id == id { assert n'.running[i].id == id; }
      }
    }
  }

  lemma SameAccounted(n: Node, n': Node, ended: set<string>)
    requires Accounted(n, ended) && n'.running == n.running && n'.started == n.started
    ensures Accounted(n', ended)
  {
    assert forall id :: IsRunning(n', id) <==> IsRunning(n, id);
  }

  lemma FinishAccounted(n: Node, k: nat, ok: bool, now: int, ended: set<string>)
    requires Accounted(n, ended) && k < |n.running|
    ensures Accounted(Finish(n, k, ok, now), ended + {n.running[k].id})
  {
    var n', done := Finish(n, k, ok, now), n.running[k].id;
    assert n'.running == n.running[..k] + n.running[k + 1..];
    forall id
      ensures IsRunning(n', id) <==> IsRunning(n, id) && id != done
    {
      if i :| 0 <= i < |n.running| && n.running[i].id == id && i != k {
        assert n'.running[if i < k then i else i - 1].id == id;
      }
    }
  }

  lemma NodeAccounted(s: Net, e: Event, ended: set<string>)
    requires Enabled(s, e) && !e.FinishAt? && Accounted(s.nodes[e.at], ended) && FlowsOk(s.nodes[e.at])
    requires Keyed(s.nodes[e.at])
    ensures Accounted(NodeAfter(s, e), ended)
  {
    var n := s.nodes[e.at];
    match e
    case CastAt(_, id, approve, now) =>
      SaveAccounted(n, n.requests[id].(votes := n.requests[id].votes + [OwnVote(n, approve, now)]), now, ended);
    case Deliver(_, msg, now) => HandleAccounted(n, msg, now, ended);
    case SubmitAt(_, _, _, _) => SameAccounted(n, NodeAfter(s, e), ended);
    case HeartbeatAt(_, _, _) => SameAccounted(n, NodeAfter(s, e), ended);
  }

  ghost predicate Keyed(n: Node) {
    forall id :: id in n.requests ==> n.requests[id].id == id
  }

  lemma HandleAccounted(n: Node, msg: Message, now: int, ended: set<string>)
    requires Accounted(n, ended) && FlowsOk(n) && Keyed(n)
    ensures Accounted(Handle(n, msg, now), ended)
  {
    match msg
    case VoteMsg(id, v) =>
      if id in n.requests && !HasVoted(n.requests[id].votes, v.voterMSP) {
        SaveAccounted(n, n.requests[id].(votes := n.requests[id].votes + [v]), now, ended);
      }
    case RequestMsg(req) =>
      if req.id in n.requests {
        var held := n.requests[req.id];
        if Merge(held.votes, req.votes) != held.votes {
          SaveAccounted(n, held.(votes := Merge(held.votes, req.votes)), now, ended);
        }
      } else {
        SameAccounted(n, Handle(n, msg, now), ended);
      }
    case PeerJoinedMsg(_) => SameAccounted(n, Handle(n, msg, now), ended);
  }

  lemma {:induction false} FlowsAccounted(s0: Net, es: seq<Event>, m: string)
    requires Init(s0) && m in s0.nodes
    ensures m in Run(s0, es).nodes && Accounted(Run(s0, es).nodes[m], Ended(s0, es, m))
  {
    if es != [] {
      var t, e := Run(s0, es[..|es| - 1]), es[|es| - 1];
      FlowsAccounted(s0, es[..|es| - 1], m);
      InitInv(s0);
      RunKeepsInv(s0, es[..|es| - 1]);
      assert NodeOk(t.history, m, t.nodes[m]);
      if Enabled(t, e) && e.at == m {
        KeyedNode(t.history, m, t.nodes[m]);
        if e.FinishAt? {
          FinishAccounted(t.nodes[m], e.k, e.ok, e.now, Ended(s0, es[..|es| - 1], m));
        } else {
          NodeAccounted(t, e, Ended(s0, es[..|es| - 1], m));
        }
      }
    }
  }

  lemma KeyedNode(h: History, m: string, n: Node)
    requires NodeOk(h, m, n)
    ensures Keyed(n) && FlowsOk(n)
  {
    forall id | id in n.requests ensures n.requests[id].id == id { assert CopyOk(h, id, n.requests[id]); }
  }

  /** Every flow started on a node either runs still or was ended by one event of the run, never both; and on an
      orderer every request that left pending had its flow started. */
  lemma {:induction false} EachFlowEndsOnce(s0: Net, es: seq<Event>, m: string, id: string)
    requires Init(s0) && m in s0.nodes && s0.nodes[m].role != Peer
    ensures m in Run(s0, es).nodes
    ensures var n, ended := Run(s0, es).nodes[m], exists i :: EndsAt(s0, es, i, m, id);
            && (id in n.requests && n.requests[id].status != Pending <==> IsRunning(n, id) || ended)
            && !(IsRunning(n, id) && ended)
            && forall i, j :: 0 <= i < j < |n.running| ==> n.running[i].id != n.running[j].id
  {
    FlowsAccounted(s0, es, m);
    EndedByEvent(s0, es, m, id);
    IdentityStays(s0, es);
    SingleExecution(s0, es, m);
  }

  /******* What arrives stays *******/

  /** A request that was delivered to a node is held by it from then on. */
  lemma DeliveredRequestHeld(s0: Net, before: seq<Event>, m: string, req: JoinRequest, now: int, es: seq<Event>)
    requires Init(s0) && Enabled(Run(s0, before), Deliver(m, RequestMsg(req), now))
    ensures Holds(Run(s0, before + [Deliver(m, RequestMsg(req), now)] + es), m, req.id)
  {
    var e := Deliver(m, RequestMsg(req), now);
    RunOn(s0, before, e, es);
    var t := Run(s0, before + [e]);
    StatusMovesForward(t, es, m);
  }

  lemma RunOn(s0: Net, before: seq<Event>, e: Event, es: seq<Event>)
    requires Init(s0)
    ensures Run(s0, before + [e]) == Next(Run(s0, before), e) && Inv(Run(s0, before + [e]))
    ensures Run(s0, before + [e] + es) == Run(Run(s0, before + [e]), es)
  {
    assert (before + [e])[..|before|] == before;
    InitInv(s0);
    RunKeepsInv(s0, before + [e]);
    RunAppend(s0, before + [e], es);
  }

  ghost predicate Lists(n: Node, mspID: string) {
    exists p :: p in n.peers && p.mspID == mspID
  }

  lemma {:induction false} AddPeerKeepsListed(peers: seq<PeerInfo>, p: PeerInfo, mspID: string)
    requires exists q :: q in peers && q.mspID == mspID
    ensures exists q :: q in AddPeer(peers, p) && q.mspID == mspID
  {
    AddPeerHolds(peers, p);
    var q :| q in peers && q.mspID == mspID;
    if q.mspID == p.mspID { assert p.mspID == mspID; }
  }

  lemma TouchKeepsListed(peers: seq<PeerInfo>, touched: string, now: int, mspID: string)
    requires exists q :: q in peers && q.mspID == mspID
    ensures exists q :: q in Touch(peers, touched, now) && q.mspID == mspID
  {
    var q :| q in peers && q.mspID == mspID;
    var i :| 0 <= i < |peers| && peers[i] == q;
    assert Touch(peers, touched, now)[i].mspID == mspID;
  }

  lemma NodeKeepsListed(s: Net, e: Event, mspID: string)
    requires Enabled(s, e) && Lists(s.nodes[e.at], mspID)
    ensures Lists(NodeAfter(s, e), mspID)
  {
    var n := s.nodes[e.at];
    match e
    case Deliver(_, msg, _) =>
      if msg.PeerJoinedMsg? { AddPeerKeepsListed(n.peers, msg.peer, mspID); }
      else { assert Handle(n, msg, e.now).peers == n.peers; }
    case FinishAt(_, k, ok, now) =>
      if ok { AddPeerKeepsListed(n.peers, PeerOf(n.running[k], now), mspID); }
    case HeartbeatAt(_, touched, now) => TouchKeepsListed(n.peers, touched, now, mspID);
    case CastAt(_, id, approve, now) => assert Cast(n, id, approve, now).peers == n.peers;
    case SubmitAt(_, _, _, _) =>
  }

  lemma {:induction false} ListedStays(s: Net, es: seq<Event>, m: string, mspID: string)
    requires m in s.nodes && Lists(s.nodes[m], mspID)
    ensures m in Run(s, es).nodes && Lists(Run(s, es).nodes[m], mspID)
  {
    if es != [] {
      var t, e := Run(s, es[..|es| - 1]), es[|es| - 1];
      ListedStays(s, es[..|es| - 1], m, mspID);
      if Enabled(t, e) && e.at == m { NodeKeepsListed(t, e, mspID); }
    }
  }

  /** A successful approval flow lists the newcomer, as it applied, announces it, and the list never loses it. */
  lemma FinishedFlowLists(s0: Net, before: seq<Event>, m: string, k: nat, now: int, es: seq<Event>)
    requires Init(s0) && Enabled(Run(s0, before), FinishAt(m, k, true, now))
    ensures var r := Run(s0, before).nodes[m].running[k];
            var p := PeerInfo(r.orgName, r.mspID, r.domain, r.mgmtAddr, now, 0);
            var t := Run(s0, before + [FinishAt(m, k, true, now)]);
            && p in t.nodes[m].peers && PeerJoinedMsg(p) in t.sent
            && m in Run(s0, before + [FinishAt(m, k, true, now)] + es).nodes
            && Lists(Run(s0, before + [FinishAt(m, k, true, now)] + es).nodes[m], r.mspID)
  {
    var e, s := FinishAt(m, k, true, now), Run(s0, before);
    var r := s.nodes[m].running[k];
    RunOn(s0, before, e, es);
    AddPeerHolds(s.nodes[m].peers, PeerOf(r, now));
    ListedStays(Run(s0, before + [e]), es, m, r.mspID);
  }

  /** A failed one leaves the request rejected for good. */
  lemma FailedFlowRejects(s0: Net, before: seq<Event>, m: string, k: nat, now: int, es: seq<Event>)
    requires Init(s0) && Enabled(Run(s0, before), FinishAt(m, k, false, now))
    ensures var id := Run(s0, before).nodes[m].running[k].id;
            var t := Run(s0, before + [FinishAt(m, k, false, now)] + es);
            Holds(t, m, id) && CopyAt(t, m, id).status == Rejected
  {
    var e, s := FinishAt(m, k, false, now), Run(s0, before);
    RunOn(s0, before, e, es);
    StatusMovesForward(Run(s0, before + [e]), es, m);
  }

  /** An announced newcomer that was delivered is listed from then on. */
  lemma DeliveredPeerListed(s0: Net, before: seq<Event>, m: string, p: PeerInfo, now: int, es: seq<Event>)
    requires Init(s0) && Enabled(Run(s0, before), Deliver(m, PeerJoinedMsg(p), now))
    ensures var t := Run(s0, before + [Deliver(m, PeerJoinedMsg(p), now)]);
            m in t.nodes && p in t.nodes[m].peers
    ensures var t := Run(s0, before + [Deliver(m, PeerJoinedMsg(p), now)] + es);
            m in t.nodes && Lists(t.nodes[m], p.mspID)
  {
    var e := Deliver(m, PeerJoinedMsg(p), now);
    RunOn(s0, before, e, es);
    AddPeerHolds(Run(s0, before).nodes[m].peers, p);
    ListedStays(Run(s0, before + [e]), es, m, p.mspID);
  }
}
