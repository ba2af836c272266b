/** The gossip protocol: one node per MSP, and messages that may be lost, duplicated, reordered and
    delivered anywhere. A message once sent can be delivered any number of times, or never. */
module Network {
  import opened Common
  import opened NodeManager

  /** What really happened: every request as submitted, and every vote as cast, in order. */
  datatype Ballot = Ballot(id: string, vote: Vote)

  datatype History = History(origin: map<string, JoinRequest>, ballots: seq<Ballot>)

  datatype Net = Net(
    nodes: map<string, Node>, sent: set<Message>, history: History, seeds: set<string>)

  datatype Event =
    | SubmitAt(at: string, application: Application, id: string, now: int)
    | CastAt(at: string, id: string, approve: bool, now: int)
    | Deliver(at: string, message: Message, now: int)
    | FinishAt(at: string, k: nat, ok: bool, now: int)
    | HeartbeatAt(at: string, mspID: string, now: int)

  /** Request IDs are 16 random bytes: a new one is new. */
  predicate Enabled(s: Net, e: Event) {
    && e.at in s.nodes
    && match e
       case SubmitAt(_, _, id, _) => id !in s.history.origin
       case CastAt(at, id, _, _) => CastError(s.nodes[at], id) == None
       case Deliver(_, m, _) => m in s.sent
       case FinishAt(at, k, _, _) => k < |s.nodes[at].running|
       case HeartbeatAt(_, _, _) => true
  }

  function Handle(n: Node, m: Message, now: int): Node {
    match m
    case RequestMsg(req) => ReceiveRequest(n, req, now)
    case VoteMsg(id, v) => ReceiveVote(n, id, v, now)
    case PeerJoinedMsg(p) => n.(peers := AddPeer(n.peers, p))
  }

  function NodeAfter(s: Net, e: Event): Node
    requires Enabled(s, e)
  {
    var n := s.nodes[e.at];
    match e
    case SubmitAt(_, a, id, now) => Submit(n, a, id, now)
    case CastAt(_, id, approve, now) => Cast(n, id, approve, now)
    case Deliver(_, m, now) => Handle(n, m, now)
    case FinishAt(_, k, ok, now) => Finish(n, k, ok, now)
    case HeartbeatAt(_, mspID, now) => n.(peers := Touch(n.peers, mspID, now))
  }

  function Sends(s: Net, e: Event): set<Message>
    requires Enabled(s, e)
  {
    var n := s.nodes[e.at];
    match e
    case SubmitAt(_, a, id, now) => {RequestMsg(Submitted(n, a, id, now))}
    case CastAt(_, id, approve, now) => {VoteMsg(id, OwnVote(n, approve, now))}
    case FinishAt(_, k, ok, now) => if ok then {PeerJoinedMsg(PeerOf(n.running[k], now))} else {}
    case _ => {}
  }

  function Records(s: Net, e: Event): History
    requires Enabled(s, e)
  {
    var n, h := s.nodes[e.at], s.history;
    match e
    case SubmitAt(_, a, id, now) => h.(origin := h.origin[id := Submitted(n, a, id, now)])
    case CastAt(_, id, approve, now) => h.(ballots := h.ballots + [Ballot(id, OwnVote(n, approve, now))])
    case _ => h
  }

  function Next(s: Net, e: Event): Net {
    if !Enabled(s, e) then s
    else Net(s.nodes[e.at := NodeAfter(s, e)], s.sent + Sends(s, e), Records(s, e), s.seeds)
  }

  function Run(s: Net, es: seq<Event>): Net {
    if es == [] then s else Next(Run(s, es[..|es| - 1]), es[|es| - 1])
  }

  /** Before anything is submitted: nodes know only their first peers. */
  ghost predicate Init(s: Net) {
    && s.sent == {} && s.history == History(map[], [])
    && forall m :: m in s.nodes ==>
         && s.nodes[m].mspID == m && s.nodes[m].requests == map[]
         && s.nodes[m].running == [] && s.nodes[m].started == []
         && DistinctPeers(s.nodes[m].peers)
         && forall p :: p in s.nodes[m].peers ==> p.mspID in s.seeds
  }

  ghost predicate DistinctPeers(peers: seq<PeerInfo>) {
    forall i, j :: 0 <= i < j < |peers| ==> peers[i].mspID != peers[j].mspID
  }

  /******* The invariant *******/

  /** The organisations whose cast approvals count for a request. */
  ghost function Approvers(h: History, id: string): set<string>
    requires id in h.origin
  {
    set b | b in h.ballots && b.id == id && Counts(h.origin[id].totalPeers, b.vote) :: b.vote.voterMSP
  }

  /** Enough organisations really cast an approval. */
  ghost predicate Admitted(h: History, id: string) {
    id in h.origin && |Approvers(h, id)| >= RequiredVotes(h.origin[id])
  }

  ghost predicate OneBallotEach(h: History) {
    forall i, j :: 0 <= i < j < |h.ballots| ==>
      (h.ballots[i].id, h.ballots[i].vote.voterMSP) != (h.ballots[j].id, h.ballots[j].vote.voterMSP)
  }

  /** Copies of a request differ from it in votes and outcome only. */
  ghost predicate SameTerms(r: JoinRequest, c: JoinRequest) {
    c == r.(status := c.status, votes := c.votes, resolvedAt := c.resolvedAt)
  }

  /** A copy holds only votes really cast, one per organisation, and is resolved exactly when they
      reach the majority. */
  ghost predicate CopyOk(h: History, id: string, c: JoinRequest) {
    && c.id == id && id in h.origin && SameTerms(h.origin[id], c)
    && DistinctVoters(c.votes)
    && (forall v :: v in c.votes ==> Ballot(id, v) in h.ballots)
    && (c.status == Pending <==> !MajorityReached(c))
  }

  /** A node's own vote never gets lost from its copy. */
  ghost predicate OwnVoteKept(h: History, m: string, c: JoinRequest) {
    forall v :: Ballot(c.id, v) in h.ballots && v.voterMSP == m ==> v in c.votes
  }

  ghost predicate RunningOk(h: History, m: string, n: Node, r: JoinRequest) {
    && CopyOk(h, r.id, r) && OwnVoteKept(h, m, r)
    && r.status == Approved
    && r.id in n.requests && n.requests[r.id].status != Pending
  }

  ghost predicate FlowsOk(n: Node) {
    && Distinct(n.started)
    && (ExecutesApprovals(n.role) ==>
          forall id :: id in n.started <==> id in n.requests && n.requests[id].status != Pending)
    && (!ExecutesApprovals(n.role) ==>
          n.started == [] && n.running == []
          && forall id :: id in n.requests ==> n.requests[id].status != Rejected)
  }

  ghost predicate PeerOk(h: History, seeds: set<string>, p: PeerInfo) {
    p.mspID in seeds || exists id :: id in h.origin && h.origin[id].mspID == p.mspID && Admitted(h, id)
  }

  ghost predicate PeersOk(h: History, seeds: set<string>, peers: seq<PeerInfo>) {
    DistinctPeers(peers) && forall p :: p in peers ==> PeerOk(h, seeds, p)
  }

  ghost predicate NodeOk(h: History, m: string, n: Node) {
    && n.mspID == m
    && (forall id :: id in n.requests ==> CopyOk(h, id, n.requests[id]) && OwnVoteKept(h, m, n.requests[id]))
    && (forall b :: b in h.ballots && b.vote.voterMSP == m ==> b.id in n.requests)
    && (forall r :: r in n.running ==> RunningOk(h, m, n, r))
    && FlowsOk(n)
  }

  ghost predicate MessageOk(h: History, seeds: set<string>, m: Message) {
    match m
    case RequestMsg(r) => r.id in h.origin && r == h.origin[r.id]
    case VoteMsg(id, v) => Ballot(id, v) in h.ballots
    case PeerJoinedMsg(p) => PeerOk(h, seeds, p)
  }

  ghost predicate HistoryOk(h: History, nodes: map<string, Node>) {
    && OneBallotEach(h)
    && (forall b :: b in h.ballots ==> b.id in h.origin && b.vote.voterMSP in nodes)
    && (forall id :: id in h.origin ==>
          h.origin[id].id == id && h.origin[id].status == Pending && h.origin[id].votes == []
          && h.origin[id].totalPeers >= 0)
  }

  ghost predicate Inv(s: Net) {
    && HistoryOk(s.history, s.nodes)
    && (forall m :: m in s.nodes ==> NodeOk(s.history, m, s.nodes[m]))
    && (forall m :: m in s.nodes ==> PeersOk(s.history, s.seeds, s.nodes[m].peers))
    && (forall m :: m in s.sent ==> MessageOk(s.history, s.seeds, m))
  }

  /******* History only grows *******/

  ghost predicate Grows(h: History, h': History) {
    && (forall id :: id in h.origin ==> id in h'.origin && h'.origin[id] == h.origin[id])
    && (forall b :: b in h.ballots ==> b in h'.ballots)
  }

  lemma AdmittedForever(h: History, h': History, id: string)
    requires Grows(h, h') && Admitted(h, id)
    ensures Admitted(h', id)
  {
    SubsetCardinality(Approvers(h, id), Approvers(h', id));
  }

  lemma PeerStaysOk(h: History, h': History, seeds: set<string>, p: PeerInfo)
    requires Grows(h, h') && PeerOk(h, seeds, p)
    ensures PeerOk(h', seeds, p)
  {
    if p.mspID !in seeds {
      var id :| id in h.origin && h.origin[id].mspID == p.mspID && Admitted(h, id);
      AdmittedForever(h, h', id);
    }
  }

  /******* A copy after its votes changed *******/

  /** Counted votes of a copy are cast approvals. */
  lemma MajorityIsReal(h: History, id: string, c: JoinRequest)
    requires id in h.origin && SameTerms(h.origin[id], c) && DistinctVoters(c.votes)
    requires forall v :: v in c.votes ==> Ballot(id, v) in h.ballots
    requires MajorityReached(c)
    ensures Admitted(h, id)
  {
    CountIsNumberOfVoters(c.totalPeers, c.votes);
    forall m | m in CountedVoters(c.totalPeers, c.votes)
      ensures m in Approvers(h, id)
    {
      var v :| v in c.votes && Counts(c.totalPeers, v) && v.voterMSP == m;
      assert Ballot(id, v) in h.ballots;
    }
    SubsetCardinality(CountedVoters(c.totalPeers, c.votes), Approvers(h, id));
  }

  /** A copy whose votes grew, once settled, is a good copy again. */
  lemma SettledCopyOk(h: History, id: string, c: JoinRequest, votes: seq<Vote>, now: int)
    requires CopyOk(h, id, c)
    requires c.votes <= votes && DistinctVoters(votes)
    requires forall v :: v in votes ==> Ballot(id, v) in h.ballots
    ensures CopyOk(h, id, Settled(c.(votes := votes), now))
  {
    CountGrows(c.totalPeers, c.votes, votes);
  }

  /******* Every step keeps the invariant *******/

  /** A node is unaffected by history that grows without its own votes. */
  lemma NodeStaysOk(h: History, h': History, m: string, n: Node)
    requires Grows(h, h') && NodeOk(h, m, n)
    requires forall b :: b in h'.ballots && b.vote.voterMSP == m ==> b in h.ballots
    ensures NodeOk(h', m, n)
  {
    forall id | id in n.requests
      ensures CopyOk(h', id, n.requests[id]) && OwnVoteKept(h', m, n.requests[id])
    {
      assert CopyOk(h, id, n.requests[id]);
    }
    forall r | r in n.running
      ensures RunningOk(h', m, n, r)
    {
      assert RunningOk(h, m, n, r);
    }
  }

  lemma AppendKeepsDistinctIDs(s: seq<string>, x: string)
    requires Distinct(s) && x !in s
    ensures Distinct(s + [x])
  {
  }

  /** Saving a copy with more votes keeps the node's flows in order. */
  lemma SaveKeepsFlows(n: Node, r: JoinRequest, now: int)
    requires FlowsOk(n) && r.id in n.requests && r.status == n.requests[r.id].status
    ensures FlowsOk(Save(n, r, now))
  {
    var n' := Save(n, r, now);
    if n'.started != n.started {
      AppendKeepsDistinctIDs(n.started, r.id);
    }
  }

  /** Saving a copy with more votes, all of them cast and its own among them, keeps the node good. */
  lemma SaveKeepsNode(h: History, m: string, n: Node, id: string, votes: seq<Vote>, now: int)
    requires n.mspID == m && id in n.requests
    requires forall i :: i in n.requests ==> CopyOk(h, i, n.requests[i])
    requires forall i :: i in n.requests && i != id ==> OwnVoteKept(h, m, n.requests[i])
    requires forall b :: b in h.ballots && b.vote.voterMSP == m ==> b.id in n.requests
    requires forall r :: r in n.running ==> RunningOk(h, m, n, r)
    requires FlowsOk(n)
    requires n.requests[id].votes <= votes && DistinctVoters(votes)
    requires forall v :: v in votes ==> Ballot(id, v) in h.ballots
    requires forall v :: Ballot(id, v) in h.ballots && v.voterMSP == m ==> v in votes
    ensures NodeOk(h, m, Save(n, n.requests[id].(votes := votes), now))
  {
    var c := n.requests[id].(votes := votes);
    var s, n' := Settled(c, now), Save(n, c, now);
    SettledCopyOk(h, id, n.requests[id], votes, now);
    assert CopyOk(h, id, s) && OwnVoteKept(h, m, s);
    SaveKeepsFlows(n, c, now);
    forall r | r in n'.running
      ensures RunningOk(h, m, n', r)
    {
      assert r in n.running || r == s;
    }
  }

  lemma DeliverVoteKeepsNode(h: History, m: string, n: Node, id: string, v: Vote, now: int)
    requires NodeOk(h, m, n) && Ballot(id, v) in h.ballots
    ensures NodeOk(h, m, ReceiveVote(n, id, v, now))
  {
    if id in n.requests && !HasVoted(n.requests[id].votes, v.voterMSP) {
      assert OwnVoteKept(h, m, n.requests[id]);
      AppendKeepsDistinct(n.requests[id].votes, v);
      SaveKeepsNode(h, m, n, id, n.requests[id].votes + [v], now);
    }
  }

  lemma CastKeepsNode(h: History, m: string, n: Node, id: string, approve: bool, now: int)
    requires NodeOk(h, m, n) && CastError(n, id) == None
    ensures NodeOk(h.(ballots := h.ballots + [Ballot(id, OwnVote(n, approve, now))]), m, Cast(n, id, approve, now))
  {
    var v := OwnVote(n, approve, now);
    var h' := h.(ballots := h.ballots + [Ballot(id, v)]);
    assert Ballot(id, v) in h'.ballots;
    forall r | r in n.running
      ensures RunningOk(h', m, n, r)
    {
      assert RunningOk(h, m, n, r) && r.id != id;
    }
    assert OwnVoteKept(h, m, n.requests[id]);
    AppendKeepsDistinct(n.requests[id].votes, v);
    SaveKeepsNode(h', m, n, id, n.requests[id].votes + [v], now);
  }

  lemma UnvotedCopyOk(h: History, m: string, n: Node, c: JoinRequest)
    requires forall b :: b in h.ballots && b.vote.voterMSP == m ==> b.id in n.requests
    requires c.id !in n.requests && c.id in h.origin && c == h.origin[c.id] && c.status == Pending && c.votes == []
    ensures CopyOk(h, c.id, c) && OwnVoteKept(h, m, c)
  {
  }

  /** Taking in a request the node does not hold yet, unvoted on. */
  lemma StoreKeepsNode(h: History, m: string, n: Node, c: JoinRequest)
    requires NodeOk(h, m, n) && c.id !in n.requests
    requires c.id in h.origin && c == h.origin[c.id] && c.status == Pending && c.votes == []
    ensures NodeOk(h, m, n.(requests := n.requests[c.id := c]))
  {
    var n' := n.(requests := n.requests[c.id := c]);
    assert CopyOk(h, c.id, c) && OwnVoteKept(h, m, c) by { UnvotedCopyOk(h, m, n, c); }
    forall r | r in n'.running
      ensures RunningOk(h, m, n', r)
    {
      assert RunningOk(h, m, n, r);
    }
  }

  lemma DeliverRequestKeepsNode(h: History, m: string, n: Node, req: JoinRequest, now: int)
    requires NodeOk(h, m, n)
    requires req.id in h.origin && req == h.origin[req.id] && req.status == Pending && req.votes == []
    ensures NodeOk(h, m, ReceiveRequest(n, req, now))
  {
    if req.id !in n.requests {
      StoreKeepsNode(h, m, n, req);
    }
  }

  lemma SubmitKeepsNode(h: History, m: string, n: Node, a: Application, id: string, now: int)
    requires NodeOk(h, m, n) && id !in h.origin
    ensures NodeOk(h.(origin := h.origin[id := Submitted(n, a, id, now)]), m, Submit(n, a, id, now))
  {
    var c := Submitted(n, a, id, now);
    var h' := h.(origin := h.origin[id := c]);
    assert id in n.requests ==> CopyOk(h, id, n.requests[id]);
    NodeStaysOk(h, h', m, n);
    StoreKeepsNode(h', m, n, c);
  }

  lemma RejectedCopyOk(h: History, m: string, r: JoinRequest, now: int)
    requires CopyOk(h, r.id, r) && OwnVoteKept(h, m, r) && r.status == Approved
    ensures var c := r.(status := Rejected, resolvedAt := Some(now));
            CopyOk(h, r.id, c) && OwnVoteKept(h, m, c)
  {
  }

  lemma FinishKeepsNode(h: History, m: string, n: Node, k: nat, ok: bool, now: int)
    requires NodeOk(h, m, n) && k < |n.running|
    ensures NodeOk(h, m, Finish(n, k, ok, now))
  {
    var r, n' := n.running[k], Finish(n, k, ok, now);
    assert r in n.running && RunningOk(h, m, n, r);
    assert ExecutesApprovals(n.role);
    if !ok { RejectedCopyOk(h, m, r, now); }
    forall q | q in n'.running
      ensures RunningOk(h, m, n', q)
    {
      assert q in n.running && RunningOk(h, m, n, q);
    }
  }

  lemma NodeAfterOk(s: Net, e: Event)
    requires Inv(s) && Enabled(s, e)
    ensures NodeOk(Records(s, e), e.at, NodeAfter(s, e))
  {
    var n, h := s.nodes[e.at], s.history;
    assert NodeOk(h, e.at, n);
    match e
    case SubmitAt(at, a, id, now) => SubmitKeepsNode(h, at, n, a, id, now);
    case CastAt(at, id, approve, now) => CastKeepsNode(h, at, n, id, approve, now);
    case FinishAt(at, k, ok, now) => FinishKeepsNode(h, at, n, k, ok, now);
    case HeartbeatAt(at, mspID, now) =>
      var n' := n.(peers := Touch(n.peers, mspID, now));
      forall r | r in n'.running ensures RunningOk(h, at, n', r) { assert RunningOk(h, at, n, r); }
    case Deliver(at, msg, now) =>
      assert MessageOk(h, s.seeds, msg);
      match msg
      case RequestMsg(req) => DeliverRequestKeepsNode(h, at, n, req, now);
      case VoteMsg(id, v) => DeliverVoteKeepsNode(h, at, n, id, v, now);
      case PeerJoinedMsg(p) =>
        var n' := n.(peers := AddPeer(n.peers, p));
        forall r | r in n'.running ensures RunningOk(h, at, n', r) { assert RunningOk(h, at, n, r); }
  }

  lemma RecordsGrow(s: Net, e: Event)
    requires Inv(s) && Enabled(s, e)
    ensures Grows(s.history, Records(s, e))
    ensures forall b :: b in Records(s, e).ballots && b.vote.voterMSP != e.at ==> b in s.history.ballots
  {
    assert NodeOk(s.history, e.at, s.nodes[e.at]);
  }

  /** A node never casts twice: its earlier ballot would still be in its copy. */
  lemma CastIsFirst(h: History, m: string, n: Node, id: string)
    requires NodeOk(h, m, n) && CastError(n, id) == None
    ensures forall b :: b in h.ballots ==> (b.id, b.vote.voterMSP) != (id, m)
  {
    forall b | b in h.ballots
      ensures (b.id, b.vote.voterMSP) != (id, m)
    {
      assert OwnVoteKept(h, m, n.requests[id]);
      assert b == Ballot(b.id, b.vote);
    }
  }

  lemma CastKeepsHistory(h: History, m: string, n: Node, nodes: map<string, Node>, id: string, v: Vote)
    requires HistoryOk(h, nodes) && NodeOk(h, m, n) && CastError(n, id) == None
    requires m in nodes && v.voterMSP == m
    ensures HistoryOk(h.(ballots := h.ballots + [Ballot(id, v)]), nodes)
  {
    CastIsFirst(h, m, n, id);
    assert CopyOk(h, id, n.requests[id]);
    assert forall i :: 0 <= i < |h.ballots| ==> h.ballots[i] in h.ballots;
  }

  lemma RecordsOk(s: Net, e: Event)
    requires Inv(s) && Enabled(s, e)
    ensures HistoryOk(Records(s, e), s.nodes[e.at := NodeAfter(s, e)])
  {
    var n, h := s.nodes[e.at], s.history;
    assert HistoryOk(h, s.nodes[e.at := NodeAfter(s, e)]);
    if e.CastAt? {
      CastKeepsHistory(h, e.at, n, s.nodes[e.at := NodeAfter(s, e)], e.id, OwnVote(n, e.approve, e.now));
    }
  }

  lemma {:induction false} AddPeerDistinct(peers: seq<PeerInfo>, p: PeerInfo)
    requires DistinctPeers(peers)
    ensures DistinctPeers(AddPeer(peers, p))
  {
    if peers != [] {
      AddPeerDistinct(peers[1..], p);
      var r := AddPeer(peers[1..], p);
      forall q | q in r ensures q.mspID == p.mspID || q in peers {}
      forall i | 0 <= i < |r| ensures r[i] in r {}
    }
  }

  lemma {:induction false} TouchKeepsPeersOk(h: History, seeds: set<string>, peers: seq<PeerInfo>, mspID: string, now: int)
    requires PeersOk(h, seeds, peers)
    ensures PeersOk(h, seeds, Touch(peers, mspID, now))
  {
    var r := Touch(peers, mspID, now);
    forall p | p in r
      ensures PeerOk(h, seeds, p)
    {
      var i :| 0 <= i < |r| && r[i] == p;
      assert PeerOk(h, seeds, peers[i]);
    }
  }

  lemma AddPeerKeepsPeersOk(h: History, seeds: set<string>, peers: seq<PeerInfo>, p: PeerInfo)
    requires PeersOk(h, seeds, peers) && PeerOk(h, seeds, p)
    ensures PeersOk(h, seeds, AddPeer(peers, p))
  {
    AddPeerDistinct(peers, p);
  }

  lemma PeersAfterOk(s: Net, e: Event)
    requires Inv(s) && Enabled(s, e)
    ensures PeersOk(s.history, s.seeds, NodeAfter(s, e).peers)
    ensures forall m :: m in Sends(s, e) && m.PeerJoinedMsg? ==> PeerOk(s.history, s.seeds, m.peer)
  {
    var n, h := s.nodes[e.at], s.history;
    assert PeersOk(h, s.seeds, n.peers) && NodeOk(h, e.at, n);
    match e
    case HeartbeatAt(_, mspID, now) => TouchKeepsPeersOk(h, s.seeds, n.peers, mspID, now);
    case FinishAt(_, k, ok, now) =>
      var r := n.running[k];
      assert RunningOk(h, e.at, n, r);
      MajorityIsReal(h, r.id, r);
      assert PeerOk(h, s.seeds, PeerOf(r, now));
      AddPeerKeepsPeersOk(h, s.seeds, n.peers, PeerOf(r, now));
    case Deliver(_, msg, _) =>
      if msg.PeerJoinedMsg? {
        assert MessageOk(h, s.seeds, msg);
        AddPeerKeepsPeersOk(h, s.seeds, n.peers, msg.peer);
      }
    case _ =>
  }

  lemma PeersStayOk(h: History, h': History, seeds: set<string>, peers: seq<PeerInfo>)
    requires Grows(h, h') && PeersOk(h, seeds, peers)
    ensures PeersOk(h', seeds, peers)
  {
    forall p | p in peers ensures PeerOk(h', seeds, p) { PeerStaysOk(h, h', seeds, p); }
  }

  lemma MessagesStayOk(s: Net, e: Event)
    requires Inv(s) && Enabled(s, e)
    ensures forall m :: m in s.sent + Sends(s, e) ==> MessageOk(Records(s, e), s.seeds, m)
  {
    var h, h' := s.history, Records(s, e);
    RecordsGrow(s, e);
    PeersAfterOk(s, e);
    forall m | m in s.sent + Sends(s, e)
      ensures MessageOk(h', s.seeds, m)
    {
      if m in s.sent { assert MessageOk(h, s.seeds, m); }
      if m.PeerJoinedMsg? { PeerStaysOk(h, h', s.seeds, m.peer); }
    }
  }

  /** The nodes an event does not touch. */
  lemma OthersStayOk(s: Net, e: Event, m: string)
    requires Inv(s) && Enabled(s, e) && m in s.nodes && m != e.at
    ensures NodeOk(Records(s, e), m, s.nodes[m]) && PeersOk(Records(s, e), s.seeds, s.nodes[m].peers)
  {
    RecordsGrow(s, e);
    NodeStaysOk(s.history, Records(s, e), m, s.nodes[m]);
    PeersStayOk(s.history, Records(s, e), s.seeds, s.nodes[m].peers);
  }

  lemma ActorStaysOk(s: Net, e: Event)
    requires Inv(s) && Enabled(s, e)
    ensures NodeOk(Records(s, e), e.at, NodeAfter(s, e))
    ensures PeersOk(Records(s, e), s.seeds, NodeAfter(s, e).peers)
  {
    RecordsGrow(s, e);
    NodeAfterOk(s, e);
    PeersAfterOk(s, e);
    PeersStayOk(s.history, Records(s, e), s.seeds, NodeAfter(s, e).peers);
  }

  lemma NextKeepsInv(s: Net, e: Event)
    requires Inv(s)
    ensures Inv(Next(s, e))
  {
    if Enabled(s, e) {
      var t := Next(s, e);
      forall m | m in t.nodes
        ensures NodeOk(t.history, m, t.nodes[m]) && PeersOk(t.history, t.seeds, t.nodes[m].peers)
      {
        if m == e.at { ActorStaysOk(s, e); } else { OthersStayOk(s, e, m); }
      }
      assert HistoryOk(t.history, t.nodes) by { RecordsOk(s, e); }
      assert forall m :: m in t.sent ==> MessageOk(t.history, t.seeds, m) by { MessagesStayOk(s, e); }
    }
  }
}
