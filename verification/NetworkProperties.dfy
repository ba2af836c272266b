/** What the gossip protocol guarantees, over every run of every network. */
module NetworkProperties {
  import opened Common
  import opened NodeManager
  import opened Network

  predicate Holds(s: Net, m: string, id: string) {
    m in s.nodes && id in s.nodes[m].requests
  }

  function CopyAt(s: Net, m: string, id: string): JoinRequest
    requires Holds(s, m, id)
  {
    s.nodes[m].requests[id]
  }

  lemma {:induction false} RunKeepsInv(s: Net, es: seq<Event>)
    requires Inv(s)
    ensures Inv(Run(s, es))
  {
    if es != [] {
      RunKeepsInv(s, es[..|es| - 1]);
      NextKeepsInv(Run(s, es[..|es| - 1]), es[|es| - 1]);
    }
  }

  lemma InitInv(s: Net)
    requires Init(s)
    ensures Inv(s)
  {
    forall m | m in s.nodes
      ensures NodeOk(s.history, m, s.nodes[m]) && PeersOk(s.history, s.seeds, s.nodes[m].peers)
    {
      forall p | p in s.nodes[m].peers ensures PeerOk(s.history, s.seeds, p) {}
    }
  }

  /** In every reachable state an organisation has cast at most one vote on a request; every vote in
      a copy or in flight is that vote; no copy holds two votes of one organisation; and a copy that
      was ever approved rests on a majority of organisations that really cast an approval, the orderer not
      among them once there are peers. */
  lemma VoteIntegrity(s0: Net, es: seq<Event>)
    requires Init(s0)
    ensures var s := Run(s0, es);
            && OneBallotEach(s.history)
            && (forall id, v :: VoteMsg(id, v) in s.sent ==> Ballot(id, v) in s.history.ballots)
            && (forall m, id :: Holds(s, m, id) ==>
                  && DistinctVoters(CopyAt(s, m, id).votes)
                  && (forall v :: v in CopyAt(s, m, id).votes ==> Ballot(id, v) in s.history.ballots)
                  && (CopyAt(s, m, id).status != Pending ==>
                        id in s.history.origin
                        && |Approvers(s.history, id)| >= RequiredVotes(CopyAt(s, m, id))
                        && (CopyAt(s, m, id).totalPeers > 0 ==> ORDERER_MSP !in Approvers(s.history, id))))
  {
    var s := Run(s0, es);
    InitInv(s0);
    RunKeepsInv(s0, es);
    forall id, v | VoteMsg(id, v) in s.sent ensures Ballot(id, v) in s.history.ballots {
      assert MessageOk(s.history, s.seeds, VoteMsg(id, v));
    }
    forall m, id | Holds(s, m, id)
      ensures CopyOk(s.history, id, CopyAt(s, m, id))
      ensures CopyAt(s, m, id).status != Pending ==> Admitted(s.history, id)
    {
      assert NodeOk(s.history, m, s.nodes[m]);
      if CopyAt(s, m, id).status != Pending { MajorityIsReal(s.history, id, CopyAt(s, m, id)); }
    }
  }

  /** The orderer's vote never helps once the network has peers. */
  lemma OrdererNeverCounts(h: History, id: string)
    requires id in h.origin && h.origin[id].totalPeers > 0
    ensures ORDERER_MSP !in Approvers(h, id)
  {
  }

  /******* Blocking *******/

  ghost function Rejecters(h: History, id: string): set<string> {
    set b | b in h.ballots && b.id == id && !b.vote.approve :: b.vote.voterMSP
  }

  lemma {:induction false} RunGrows(s: Net, es: seq<Event>)
    requires Inv(s)
    ensures Grows(s.history, Run(s, es).history)
  {
    if es != [] {
      var t := Run(s, es[..|es| - 1]);
      RunGrows(s, es[..|es| - 1]);
      RunKeepsInv(s, es[..|es| - 1]);
      if Enabled(t, es[|es| - 1]) { RecordsGrow(t, es[|es| - 1]); }
    }
  }

  lemma BallotIsUnique(h: History, b: Ballot, c: Ballot)
    requires OneBallotEach(h) && b in h.ballots && c in h.ballots
    requires b.id == c.id && b.vote.voterMSP == c.vote.voterMSP
    ensures b == c
  {
    var i :| 0 <= i < |h.ballots| && h.ballots[i] == b;
    var j :| 0 <= j < |h.ballots| && h.ballots[j] == c;
    assert !(i < j) && !(j < i);
  }

  lemma ApproversDoNotReject(h: History, id: string)
    requires OneBallotEach(h) && id in h.origin
    ensures Approvers(h, id) !! Rejecters(h, id)
  {
    forall m | m in Approvers(h, id)
      ensures m !in Rejecters(h, id)
    {
      var b :| b in h.ballots && b.id == id && Counts(h.origin[id].totalPeers, b.vote) && b.vote.voterMSP == m;
      forall c | c in h.ballots && c.id == id && c.vote.voterMSP == m
        ensures c.vote.approve
      {
        BallotIsUnique(h, b, c);
      }
    }
  }

  /** Once more electors have rejected than the threshold can spare, no node ever approves the request,
      however the run goes on, as long as nobody votes but the electors and the orderer. */
  lemma BallotsBlock(s: Net, es: seq<Event>, id: string, electors: set<string>, m: string)
    requires Inv(s) && id in s.history.origin && id in Run(s, es).history.origin
    requires s.history.origin[id].totalPeers > 0 && |electors| == s.history.origin[id].totalPeers
    requires |electors * Rejecters(s.history, id)| > |electors| - RequiredVotes(s.history.origin[id])
    requires Approvers(Run(s, es).history, id) <= electors
    requires Holds(Run(s, es), m, id)
    ensures CopyAt(Run(s, es), m, id).status == Pending
  {
    var t := Run(s, es);
    RunGrows(s, es);
    RunKeepsInv(s, es);
    assert NodeOk(t.history, m, t.nodes[m]);
    assert electors * Rejecters(s.history, id) <= electors * Rejecters(t.history, id);
    SubsetCardinality(electors * Rejecters(s.history, id), electors * Rejecters(t.history, id));
    BlockedCopy(t.history, id, electors, CopyAt(t, m, id));
  }

  lemma BlockedCopy(h: History, id: string, electors: set<string>, c: JoinRequest)
    requires OneBallotEach(h) && CopyOk(h, id, c) && Approvers(h, id) <= electors
    requires |electors * Rejecters(h, id)| > |electors| - RequiredVotes(h.origin[id])
    ensures c.status == Pending
  {
    if c.status != Pending {
      MajorityIsReal(h, id, c);
      ApproversDoNotReject(h, id);
      var x := QuorumsMeet(Approvers(h, id), electors * Rejecters(h, id), electors);
      assert false;
    }
  }

  /******* Outcomes only move forward, and flows start once *******/

  function Rank(st: RequestStatus): nat {
    match st case Pending => 0 case Approved => 1 case Rejected => 2
  }

  ghost predicate Forward(n: Node, n': Node) {
    && n.started <= n'.started
    && forall id :: id in n.requests ==>
         id in n'.requests && Rank(n.requests[id].status) <= Rank(n'.requests[id].status)
  }

  lemma SaveForward(n: Node, r: JoinRequest, now: int)
    requires r.id in n.requests && r.status == n.requests[r.id].status
    ensures Forward(n, Save(n, r, now))
  {
  }

  lemma DeliverForward(h: History, m: string, n: Node, msg: Message, now: int)
    requires NodeOk(h, m, n)
    ensures Forward(n, Handle(n, msg, now))
  {
    if msg.VoteMsg? && msg.id in n.requests && !HasVoted(n.requests[msg.id].votes, msg.vote.voterMSP) {
      assert CopyOk(h, msg.id, n.requests[msg.id]);
      SaveForward(n, n.requests[msg.id].(votes := n.requests[msg.id].votes + [msg.vote]), now);
    } else if msg.RequestMsg? && msg.req.id in n.requests {
      var c := n.requests[msg.req.id];
      assert CopyOk(h, msg.req.id, c);
      if Merge(c.votes, msg.req.votes) != c.votes {
        SaveForward(n, c.(votes := Merge(c.votes, msg.req.votes)), now);
      }
    }
  }

  lemma SubmitForward(h: History, m: string, n: Node, a: Application, id: string, now: int)
    requires NodeOk(h, m, n) && id !in h.origin
    ensures Forward(n, Submit(n, a, id, now))
  {
    assert id in n.requests ==> CopyOk(h, id, n.requests[id]);
  }

  lemma FinishForward(n: Node, k: nat, ok: bool, now: int)
    requires k < |n.running|
    ensures Forward(n, Finish(n, k, ok, now))
  {
  }

  lemma NextForward(s: Net, e: Event, m: string)
    requires Inv(s) && m in s.nodes
    ensures m in Next(s, e).nodes && Forward(s.nodes[m], Next(s, e).nodes[m])
  {
    if Enabled(s, e) && m == e.at {
      var n := s.nodes[m];
      assert NodeOk(s.history, m, n);
      match e
      case SubmitAt(_, a, id, now) => SubmitForward(s.history, m, n, a, id, now);
      case CastAt(_, id, approve, now) =>
        assert CopyOk(s.history, id, n.requests[id]);
        SaveForward(n, n.requests[id].(votes := n.requests[id].votes + [OwnVote(n, approve, now)]), now);
      case FinishAt(_, k, ok, now) => FinishForward(n, k, ok, now);
      case Deliver(_, msg, now) => DeliverForward(s.history, m, n, msg, now);
      case _ =>
    }
  }

  /** A copy's status only moves from pending to approved to rejected, although a failing approval
      flow writes back a snapshot that may be older than the copy. */
  lemma {:induction false} StatusMovesForward(s: Net, es: seq<Event>, m: string)
    requires Inv(s) && m in s.nodes
    ensures m in Run(s, es).nodes && Forward(s.nodes[m], Run(s, es).nodes[m])
  {
    if es != [] {
      var init := es[..|es| - 1];
      StatusMovesForward(s, init, m);
      RunKeepsInv(s, init);
      NextForward(Run(s, init), es[|es| - 1], m);
    }
  }

  /** On an orderer the approval flow of a request starts at most once, exactly when its copy leaves
      pending, and never without a real majority; other nodes start none and reject nothing. */
  lemma SingleExecution(s0: Net, es: seq<Event>, m: string)
    requires Init(s0) && m in Run(s0, es).nodes
    ensures var s := Run(s0, es);
            var n := s.nodes[m];
            && Distinct(n.started)
            && (forall id :: id in n.started ==> Admitted(s.history, id))
            && (if n.role != Peer
                then forall id :: id in n.started <==> Holds(s, m, id) && CopyAt(s, m, id).status != Pending
                else n.started == [] && forall id :: Holds(s, m, id) ==> CopyAt(s, m, id).status != Rejected)
  {
    var s := Run(s0, es);
    InitInv(s0);
    RunKeepsInv(s0, es);
    assert NodeOk(s.history, m, s.nodes[m]);
    forall id | id in s.nodes[m].started
      ensures Admitted(s.history, id)
    {
      MajorityIsReal(s.history, id, CopyAt(s, m, id));
    }
  }

  /** Every peer a node knows was there from the start or was voted in by a real majority, and no
      organisation is listed twice. */
  lemma PeerProvenance(s0: Net, es: seq<Event>, m: string)
    requires Init(s0) && m in Run(s0, es).nodes
    ensures var s := Run(s0, es);
            && DistinctPeers(s.nodes[m].peers)
            && forall p :: p in s.nodes[m].peers ==>
                 p.mspID in s.seeds
                 || exists id :: Admitted(s.history, id) && s.history.origin[id].mspID == p.mspID
  {
    var s := Run(s0, es);
    InitInv(s0);
    RunKeepsInv(s0, es);
    assert PeersOk(s.history, s.seeds, s.nodes[m].peers);
    forall p | p in s.nodes[m].peers && p.mspID !in s.seeds
      ensures exists id :: Admitted(s.history, id) && s.history.origin[id].mspID == p.mspID
    {
      assert PeerOk(s.history, s.seeds, p);
    }
  }

  /** Nodes that have heard the same votes agree, in every reachable state. */
  lemma SameVotesSameOutcome(s0: Net, es: seq<Event>, m: string, n: string, id: string)
    requires Init(s0)
    requires Holds(Run(s0, es), m, id) && Holds(Run(s0, es), n, id)
    requires Elements(CopyAt(Run(s0, es), m, id).votes) == Elements(CopyAt(Run(s0, es), n, id).votes)
    ensures var c, d := CopyAt(Run(s0, es), m, id), CopyAt(Run(s0, es), n, id);
            ApprovalCount(c) == ApprovalCount(d) && (c.status == Pending <==> d.status == Pending)
  {
    var s := Run(s0, es);
    InitInv(s0);
    RunKeepsInv(s0, es);
    assert NodeOk(s.history, m, s.nodes[m]) && NodeOk(s.history, n, s.nodes[n]);
    SameVotesSameCount(CopyAt(s, m, id), CopyAt(s, n, id));
  }

  /******* Convergence *******/

  lemma SameVotesSameCount(c: JoinRequest, d: JoinRequest)
    requires DistinctVoters(c.votes) && DistinctVoters(d.votes) && c.totalPeers == d.totalPeers
    requires Elements(c.votes) == Elements(d.votes)
    ensures ApprovalCount(c) == ApprovalCount(d)
  {
    CountIsNumberOfVoters(c.totalPeers, c.votes);
    CountIsNumberOfVoters(d.totalPeers, d.votes);
    assert forall v :: v in c.votes <==> v in Elements(c.votes);
    assert forall v :: v in d.votes <==> v in Elements(d.votes);
    assert CountedVoters(c.totalPeers, c.votes) == CountedVoters(d.totalPeers, d.votes);
  }

  /** Votes reach a copy one at a time or several in a gossiped request. */
  datatype Delivery = Delivery(votes: seq<Vote>, now: int)

  function Absorb(c: JoinRequest, d: Delivery): JoinRequest {
    var merged := Merge(c.votes, d.votes);
    if merged == c.votes then c else Settled(c.(votes := merged), d.now)
  }

  function AbsorbAll(c: JoinRequest, ds: seq<Delivery>): JoinRequest {
    if ds == [] then c else Absorb(AbsorbAll(c, ds[..|ds| - 1]), ds[|ds| - 1])
  }

  ghost function VotesIn(ds: seq<Delivery>): set<Vote> {
    if ds == [] then {} else VotesIn(ds[..|ds| - 1]) + Elements(ds[|ds| - 1].votes)
  }

  /** Both gossip handlers of a peer absorb what they are given into its copy. */
  lemma HandlersAbsorb(n: Node, id: string, req: JoinRequest, v: Vote, now: int)
    requires n.role == Peer && id in n.requests && n.requests[id].id == id && req.id == id
    ensures ReceiveVote(n, id, v, now)
            == n.(requests := n.requests[id := Absorb(n.requests[id], Delivery([v], now))])
    ensures ReceiveRequest(n, req, now)
            == n.(requests := n.requests[id := Absorb(n.requests[id], Delivery(req.votes, now))])
  {
    assert n.requests[id := n.requests[id]] == n.requests;
    assert [v][..0] == [];
    assert Merge(n.requests[id].votes, [v])
      == if HasVoted(n.requests[id].votes, v.voterMSP) then n.requests[id].votes else n.requests[id].votes + [v];
  }

  ghost predicate OneVoteEach(votes: set<Vote>) {
    forall v, w :: v in votes && w in votes && v.voterMSP == w.voterMSP ==> v == w
  }

  /** A copy as the protocol keeps it on a peer. */
  ghost predicate GoodCopy(c: JoinRequest) {
    DistinctVoters(c.votes) && c.status == if MajorityReached(c) then Approved else Pending
  }

  /** When each organisation has one vote in all, nothing is lost in merging. */
  lemma MergeCollects(all: set<Vote>, held: seq<Vote>, incoming: seq<Vote>)
    requires DistinctVoters(held) && OneVoteEach(all)
    requires (forall v :: v in held ==> v in all) && (forall v :: v in incoming ==> v in all)
    ensures forall v :: v in Merge(held, incoming) <==> v in held || v in incoming
  {
    MergeProperties(held, incoming);
    var merged := Merge(held, incoming);
    forall v | v in incoming
      ensures v in merged
    {
      var w :| w in merged && w.voterMSP == v.voterMSP;
      assert w in all && v in all;
    }
    assert forall v :: v in held ==> v in merged;
  }

  lemma AbsorbStaysGood(c: JoinRequest, d: Delivery)
    requires GoodCopy(c)
    ensures GoodCopy(Absorb(c, d)) && Absorb(c, d).totalPeers == c.totalPeers
    ensures Absorb(c, d).votes == Merge(c.votes, d.votes)
  {
    MergeProperties(c.votes, d.votes);
    CountGrows(c.totalPeers, c.votes, Merge(c.votes, d.votes));
  }

  lemma AbsorbCollects(c: JoinRequest, d: Delivery)
    requires GoodCopy(c) && OneVoteEach(Elements(c.votes) + Elements(d.votes))
    ensures GoodCopy(Absorb(c, d)) && Absorb(c, d).totalPeers == c.totalPeers
    ensures Elements(Absorb(c, d).votes) == Elements(c.votes) + Elements(d.votes)
  {
    AbsorbStaysGood(c, d);
    MergeCollects(Elements(c.votes) + Elements(d.votes), c.votes, d.votes);
  }

  lemma {:induction false} AbsorbAllCollects(c: JoinRequest, ds: seq<Delivery>)
    requires GoodCopy(c) && OneVoteEach(Elements(c.votes) + VotesIn(ds))
    ensures GoodCopy(AbsorbAll(c, ds)) && AbsorbAll(c, ds).totalPeers == c.totalPeers
    ensures Elements(AbsorbAll(c, ds).votes) == Elements(c.votes) + VotesIn(ds)
  {
    if ds != [] {
      AbsorbAllCollects(c, ds[..|ds| - 1]);
      AbsorbCollects(AbsorbAll(c, ds[..|ds| - 1]), ds[|ds| - 1]);
    }
  }

  /** Two peers that end up with the same votes, in whatever order, batches and repetitions they came,
      hold the same votes, count the same approvals and reach the same outcome: approved exactly
      when those votes are a majority. */
  lemma {:induction false} Convergence(c: JoinRequest, ds: seq<Delivery>, d: JoinRequest, es: seq<Delivery>)
    requires GoodCopy(c) && GoodCopy(d) && c.totalPeers == d.totalPeers
    requires Elements(c.votes) + VotesIn(ds) == Elements(d.votes) + VotesIn(es)
    requires OneVoteEach(Elements(c.votes) + VotesIn(ds))
    ensures var x, y := AbsorbAll(c, ds), AbsorbAll(d, es);
            && Elements(x.votes) == Elements(y.votes) == Elements(c.votes) + VotesIn(ds)
            && ApprovalCount(x) == ApprovalCount(y)
            && x.status == y.status == if MajorityReached(x) then Approved else Pending
  {
    AbsorbAllCollects(c, ds);
    AbsorbAllCollects(d, es);
    SameVotesSameCount(AbsorbAll(c, ds), AbsorbAll(d, es));
  }

  /******* Convergence in the network *******/

  /** A vote delivered to a node that holds the request is in its copy afterwards: if another vote of the
      organisation had kept it out, that would be the same vote. */
  lemma VoteLands(h: History, n: Node, id: string, v: Vote, now: int)
    requires OneBallotEach(h) && Ballot(id, v) in h.ballots
    requires id in n.requests && CopyOk(h, id, n.requests[id])
    ensures var n' := ReceiveVote(n, id, v, now);
            id in n'.requests && v in n'.requests[id].votes
  {
    var votes := n.requests[id].votes;
    if HasVoted(votes, v.voterMSP) {
      var w :| w in votes && w.voterMSP == v.voterMSP;
      BallotIsUnique(h, Ballot(id, w), Ballot(id, v));
    } else {
      assert v in votes + [v];
    }
  }

  lemma DeliveryLands(s: Net, m: string, id: string, v: Vote, now: int)
    requires Holds(s, m, id) && VoteMsg(id, v) in s.sent
    requires OneBallotEach(s.history) && MessageOk(s.history, s.seeds, VoteMsg(id, v)) && CopyOk(s.history, id, CopyAt(s, m, id))
    ensures var t := Next(s, Deliver(m, VoteMsg(id, v), now));
            Holds(t, m, id) && v in CopyAt(t, m, id).votes
  {
    VoteLands(s.history, s.nodes[m], id, v, now);
  }

  ghost predicate HasVote(n: Node, id: string, v: Vote) {
    id in n.requests && v in n.requests[id].votes
  }

  /** What keeping votes rests on: copies under their own IDs, without repeated voters. */
  ghost predicate Plain(n: Node) {
    forall id :: id in n.requests ==> n.requests[id].id == id && DistinctVoters(n.requests[id].votes)
  }

  lemma NodeIsPlain(h: History, m: string, n: Node)
    requires NodeOk(h, m, n)
    ensures Plain(n) && (n.role == Peer ==> n.running == [])
    ensures forall id :: id in n.requests ==> id in h.origin
  {
    forall id | id in n.requests
      ensures id in h.origin && n.requests[id].id == id && DistinctVoters(n.requests[id].votes)
    {
      assert CopyOk(h, id, n.requests[id]);
    }
  }

  lemma SaveKeepsVotes(n: Node, other: string, votes: seq<Vote>, now: int, id: string, v: Vote)
    requires HasVote(n, id, v) && other in n.requests && n.requests[other].id == other
    requires n.requests[other].votes <= votes
    ensures HasVote(Save(n, n.requests[other].(votes := votes), now), id, v)
    ensures Save(n, n.requests[other].(votes := votes), now).role == n.role
  {
  }

  lemma HandleKeepsVotes(n: Node, msg: Message, now: int, id: string, v: Vote)
    requires Plain(n) && HasVote(n, id, v)
    ensures HasVote(Handle(n, msg, now), id, v) && Handle(n, msg, now).role == n.role
  {
    match msg
    case RequestMsg(req) =>
      if req.id in n.requests {
        var held := n.requests[req.id].votes;
        MergeProperties(held, req.votes);
        SaveKeepsVotes(n, req.id, Merge(held, req.votes), now, id, v);
      }
    case VoteMsg(other, w) =>
      if other in n.requests {
        SaveKeepsVotes(n, other, n.requests[other].votes + [w], now, id, v);
      }
    case PeerJoinedMsg(_) =>
  }

  /** On a peer, where no approval flow writes back a snapshot, no step loses a vote. */
  lemma NodeKeepsVotes(s: Net, e: Event, id: string, v: Vote)
    requires Enabled(s, e) && Plain(s.nodes[e.at]) && s.nodes[e.at].running == []
    requires id in s.history.origin && HasVote(s.nodes[e.at], id, v)
    ensures HasVote(NodeAfter(s, e), id, v) && NodeAfter(s, e).role == s.nodes[e.at].role
  {
    var n := s.nodes[e.at];
    match e
    case Deliver(at, msg, now) => HandleKeepsVotes(n, msg, now, id, v);
    case CastAt(_, other, approve, now) =>
      SaveKeepsVotes(n, other, n.requests[other].votes + [OwnVote(n, approve, now)], now, id, v);
    case _ =>
  }

  lemma NextKeepsVotes(s: Net, e: Event, m: string, id: string, v: Vote)
    requires m in s.nodes && Plain(s.nodes[m]) && s.nodes[m].running == []
    requires id in s.history.origin && HasVote(s.nodes[m], id, v)
    ensures var t := Next(s, e);
            m in t.nodes && HasVote(t.nodes[m], id, v) && t.nodes[m].role == s.nodes[m].role
  {
    if Enabled(s, e) && m == e.at {
      NodeKeepsVotes(s, e, id, v);
    }
  }

  lemma PeerIsPlain(s: Net, m: string, id: string)
    requires Inv(s) && Holds(s, m, id) && s.nodes[m].role == Peer
    ensures Plain(s.nodes[m]) && s.nodes[m].running == [] && id in s.history.origin
  {
    NodeIsPlain(s.history, m, s.nodes[m]);
  }

  /** Event i of a run hands node m a vote that is really under way. */
  ghost predicate DeliversAt(s: Net, es: seq<Event>, i: nat, m: string, id: string, v: Vote) {
    && i < |es| && es[i].Deliver? && es[i].at == m && es[i].message == VoteMsg(id, v)
    && VoteMsg(id, v) in Run(s, es[..i]).sent
  }

  lemma {:induction false} HeldVotesStay(s: Net, es: seq<Event>, m: string, id: string, v: Vote)
    requires Inv(s) && Holds(s, m, id) && s.nodes[m].role == Peer && v in CopyAt(s, m, id).votes
    ensures Holds(Run(s, es), m, id) && Run(s, es).nodes[m].role == Peer
    ensures v in CopyAt(Run(s, es), m, id).votes
  {
    if es != [] {
      HeldVotesStay(s, es[..|es| - 1], m, id, v);
      RunKeepsInv(s, es[..|es| - 1]);
      PeerIsPlain(Run(s, es[..|es| - 1]), m, id);
      NextKeepsVotes(Run(s, es[..|es| - 1]), es[|es| - 1], m, id, v);
    }
  }

  lemma RoleStays(s: Net, e: Event, m: string)
    requires m in s.nodes
    ensures m in Next(s, e).nodes && Next(s, e).nodes[m].role == s.nodes[m].role
  {
  }

  lemma {:induction false} RunKeepsHolding(s: Net, es: seq<Event>, m: string, id: string)
    requires Inv(s) && Holds(s, m, id)
    ensures Holds(Run(s, es), m, id) && Run(s, es).nodes[m].role == s.nodes[m].role
  {
    if es != [] {
      var t := Run(s, es[..|es| - 1]);
      RunKeepsHolding(s, es[..|es| - 1], m, id);
      RunKeepsInv(s, es[..|es| - 1]);
      NextForward(t, es[|es| - 1], m);
      RoleStays(t, es[|es| - 1], m);
    }
  }

  lemma MessageAndCopyOk(s: Net, m: string, id: string, v: Vote)
    requires Inv(s) && Holds(s, m, id) && VoteMsg(id, v) in s.sent
    ensures OneBallotEach(s.history) && MessageOk(s.history, s.seeds, VoteMsg(id, v)) && CopyOk(s.history, id, CopyAt(s, m, id))
  {
    assert NodeOk(s.history, m, s.nodes[m]);
  }

  lemma LastDelivery(s: Net, init: seq<Event>, e: Event, m: string, id: string, v: Vote)
    requires Inv(s) && Holds(s, m, id)
    requires e.Deliver? && e.at == m && e.message == VoteMsg(id, v) && VoteMsg(id, v) in Run(s, init).sent
    ensures Holds(Next(Run(s, init), e), m, id) && v in CopyAt(Next(Run(s, init), e), m, id).votes
  {
    RunKeepsInv(s, init);
    RunKeepsHolding(s, init, m, id);
    MessageAndCopyOk(Run(s, init), m, id, v);
    DeliveryLands(Run(s, init), m, id, v, e.now);
  }

  lemma {:induction false} DeliveredVotesStay(s: Net, es: seq<Event>, i: nat, m: string, id: string, v: Vote)
    requires Inv(s) && Holds(s, m, id) && s.nodes[m].role == Peer && DeliversAt(s, es, i, m, id, v)
    ensures Holds(Run(s, es), m, id) && v in CopyAt(Run(s, es), m, id).votes
    decreases |es|
  {
    var init, last := es[..|es| - 1], es[|es| - 1];
    if i == |es| - 1 {
      LastDelivery(s, init, last, m, id, v);
    } else {
      assert init[..i] == es[..i];
      DeliveredVotesStay(s, init, i, m, id, v);
      RunKeepsInv(s, init);
      RunKeepsHolding(s, init, m, id);
      PeerIsPlain(Run(s, init), m, id);
      NextKeepsVotes(Run(s, init), last, m, id, v);
    }
  }

  /** A peer has been brought up to date on a request: each vote ever cast was in its copy to begin with,
      or is its own, or was delivered to it at least once. */
  ghost predicate CaughtUp(s: Net, es: seq<Event>, m: string, id: string)
    requires Holds(s, m, id)
  {
    forall b :: b in Run(s, es).history.ballots && b.id == id ==>
      || b.vote in CopyAt(s, m, id).votes
      || b.vote.voterMSP == m
      || exists i :: DeliversAt(s, es, i, m, id, b.vote)
  }

  lemma CaughtUpHasAll(s: Net, es: seq<Event>, m: string, id: string)
    requires Inv(s) && Holds(s, m, id) && s.nodes[m].role == Peer && CaughtUp(s, es, m, id)
    ensures Holds(Run(s, es), m, id)
    ensures forall b :: b in Run(s, es).history.ballots && b.id == id ==> b.vote in CopyAt(Run(s, es), m, id).votes
  {
    var t := Run(s, es);
    RunKeepsHolding(s, es, m, id);
    RunKeepsInv(s, es);
    forall b | b in t.history.ballots && b.id == id
      ensures b.vote in CopyAt(t, m, id).votes
    {
      if b.vote in CopyAt(s, m, id).votes {
        HeldVotesStay(s, es, m, id, b.vote);
      } else if b.vote.voterMSP == m {
        assert OwnVoteKept(t.history, m, CopyAt(t, m, id)) && b == Ballot(id, b.vote);
      } else {
        var i :| DeliversAt(s, es, i, m, id, b.vote);
        DeliveredVotesStay(s, es, i, m, id, b.vote);
      }
    }
  }

  lemma AllVotesDecide(h: History, id: string, c: JoinRequest)
    requires CopyOk(h, id, c) && c.status != Rejected
    requires forall b :: b in h.ballots && b.id == id ==> b.vote in c.votes
    ensures ApprovalCount(c) == |Approvers(h, id)|
    ensures c.status == if Admitted(h, id) then Approved else Pending
  {
    CountIsNumberOfVoters(c.totalPeers, c.votes);
    assert CountedVoters(c.totalPeers, c.votes) == Approvers(h, id) by {
      forall p | p in CountedVoters(c.totalPeers, c.votes) ensures p in Approvers(h, id) {
        var v :| v in c.votes && Counts(c.totalPeers, v) && v.voterMSP == p;
        assert Ballot(id, v) in h.ballots;
      }
    }
  }

  lemma PeerCopyOk(t: Net, m: string, id: string)
    requires Inv(t) && Holds(t, m, id) && t.nodes[m].role == Peer
    ensures CopyOk(t.history, id, CopyAt(t, m, id)) && CopyAt(t, m, id).status != Rejected
  {
    assert NodeOk(t.history, m, t.nodes[m]);
  }

  /** Whatever else happens, in any order and however often, a peer that was brought up to date counts exactly
      the organisations that cast an approval, and has approved the request if and only if they reach the
      threshold. */
  lemma CaughtUpCopy(s0: Net, before: seq<Event>, es: seq<Event>, m: string, id: string)
    requires Init(s0)
    requires Holds(Run(s0, before), m, id) && Run(s0, before).nodes[m].role == Peer
    requires CaughtUp(Run(s0, before), es, m, id)
    ensures var t := Run(Run(s0, before), es);
            && Holds(t, m, id) && id in t.history.origin
            && ApprovalCount(CopyAt(t, m, id)) == |Approvers(t.history, id)|
            && CopyAt(t, m, id).status == (if Admitted(t.history, id) then Approved else Pending)
  {
    var s := Run(s0, before);
    var t := Run(s, es);
    InitInv(s0);
    RunKeepsInv(s0, before);
    RunKeepsInv(s, es);
    RunKeepsHolding(s, es, m, id);
    CaughtUpHasAll(s, es, m, id);
    PeerCopyOk(t, m, id);
    AllVotesDecide(t.history, id, CopyAt(t, m, id));
  }
}
