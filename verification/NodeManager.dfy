/** One node's management state: its copies of join requests, its peer list, and the handlers that
    change them. Each handler is one atomic step; `Node` is the state as a value, and the class
    `Manager` below holds it in fields, as the node does. */
module NodeManager {
  import opened Common

  datatype Role = Bootstrap | Orderer | Peer

  const ORDERER_MSP := "OrdererMSP"

  datatype RequestStatus = Pending | Approved | Rejected

  datatype Vote = Vote(voterOrg: string, voterMSP: string, approve: bool, timestamp: int)

  datatype JoinRequest = JoinRequest(
    id: string, orgName: string, mspID: string, domain: string, mgmtAddr: string,
    status: RequestStatus, votes: seq<Vote>, totalPeers: int,
    createdAt: int, resolvedAt: Option<int>)

  datatype PeerInfo = PeerInfo(
    orgName: string, mspID: string, domain: string, mgmtAddr: string, joinedAt: int, lastSeen: int)

  /** What an organisation asks for; the node that takes the request fills in the rest. */
  datatype Application = Application(orgName: string, mspID: string, domain: string, mgmtAddr: string)

  datatype Message =
    | RequestMsg(req: JoinRequest)
    | VoteMsg(id: string, vote: Vote)
    | PeerJoinedMsg(peer: PeerInfo)

  /** `running` holds the request snapshots of approval flows under way, `started` the requests whose
      flow was ever started here. */
  datatype Node = Node(
    role: Role, orgName: string, mspID: string,
    requests: map<string, JoinRequest>, peers: seq<PeerInfo>,
    running: seq<JoinRequest>, started: seq<string>)

  datatype Error = UnknownRequest | AlreadyResolved | AlreadyVoted

  /******* Counting votes *******/

  function RequiredVotes(r: JoinRequest): int {
    if r.totalPeers <= 0 then 1 else r.totalPeers / 2 + 1
  }

  /** The orderer's approval counts only while there is no peer. */
  predicate Counts(totalPeers: int, v: Vote) {
    v.approve && (totalPeers == 0 || v.voterMSP != ORDERER_MSP)
  }

  function CountedVotes(totalPeers: int, votes: seq<Vote>): nat {
    if votes == [] then 0
    else CountedVotes(totalPeers, votes[..|votes| - 1])
         + if Counts(totalPeers, votes[|votes| - 1]) then 1 else 0
  }

  function ApprovalCount(r: JoinRequest): nat {
    CountedVotes(r.totalPeers, r.votes)
  }

  predicate MajorityReached(r: JoinRequest) {
    ApprovalCount(r) >= RequiredVotes(r)
  }

  predicate HasVoted(votes: seq<Vote>, mspID: string) {
    exists v :: v in votes && v.voterMSP == mspID
  }

  /******* Handlers *******/

  predicate ExecutesApprovals(role: Role) {
    role == Bootstrap || role == Orderer
  }

  /** A request after the majority check. */
  function Settled(r: JoinRequest, now: int): JoinRequest {
    if r.status == Pending && MajorityReached(r)
    then r.(status := Approved, resolvedAt := Some(now))
    else r
  }

  /** Store a copy of a request, after the majority check; a fresh approval on an orderer starts the
      approval flow on a snapshot of it. */
  function Save(n: Node, r: JoinRequest, now: int): Node {
    var s := Settled(r, now);
    var n' := n.(requests := n.requests[r.id := s]);
    if s.status != r.status && ExecutesApprovals(n.role)
    then n'.(running := n.running + [s], started := n.started + [r.id])
    else n'
  }

  function Submitted(n: Node, a: Application, id: string, now: int): JoinRequest {
    JoinRequest(id, a.orgName, a.mspID, a.domain, a.mgmtAddr, Pending, [], |n.peers|, now, None)
  }

  function Submit(n: Node, a: Application, id: string, now: int): Node {
    n.(requests := n.requests[id := Submitted(n, a, id, now)])
  }

  /** The votes held after merging others in: the first vote of an organisation stays. */
  function Merge(held: seq<Vote>, incoming: seq<Vote>): seq<Vote> {
    if incoming == [] then held
    else
      var v := incoming[|incoming| - 1];
      var m := Merge(held, incoming[..|incoming| - 1]);
      if HasVoted(m, v.voterMSP) then m else m + [v]
  }

  function ReceiveRequest(n: Node, req: JoinRequest, now: int): Node {
    if req.id in n.requests then
      var existing := n.requests[req.id];
      var merged := Merge(existing.votes, req.votes);
      if merged == existing.votes then n else Save(n, existing.(votes := merged), now)
    else n.(requests := n.requests[req.id := req])
  }

  function CastError(n: Node, id: string): Option<Error> {
    if id !in n.requests then Some(UnknownRequest)
    else if n.requests[id].status != Pending then Some(AlreadyResolved)
    else if HasVoted(n.requests[id].votes, n.mspID) then Some(AlreadyVoted)
    else None
  }

  function OwnVote(n: Node, approve: bool, now: int): Vote {
    Vote(n.orgName, n.mspID, approve, now)
  }

  function Cast(n: Node, id: string, approve: bool, now: int): Node
    requires id in n.requests
  {
    var r := n.requests[id];
    Save(n, r.(votes := r.votes + [OwnVote(n, approve, now)]), now)
  }

  function ReceiveVote(n: Node, id: string, v: Vote, now: int): Node {
    if id in n.requests && !HasVoted(n.requests[id].votes, v.voterMSP)
    then Save(n, n.requests[id].(votes := n.requests[id].votes + [v]), now)
    else n
  }

  function AddPeer(peers: seq<PeerInfo>, p: PeerInfo): (r: seq<PeerInfo>)
    ensures forall q :: q in r ==> q == p || q in peers
  {
    if peers == [] then [p]
    else if peers[0].mspID == p.mspID then [p] + peers[1..]
    else [peers[0]] + AddPeer(peers[1..], p)
  }

  function Touch(peers: seq<PeerInfo>, mspID: string, now: int): (r: seq<PeerInfo>)
    ensures |r| == |peers|
    ensures forall i :: 0 <= i < |r| ==> r[i].mspID == peers[i].mspID
  {
    if peers == [] then []
    else if peers[0].mspID == mspID then [peers[0].(lastSeen := now)] + peers[1..]
    else [peers[0]] + Touch(peers[1..], mspID, now)
  }

  /** The list with its first entry for an organisation replaced, or touched. */
  lemma {:induction false} PeerAt(peers: seq<PeerInfo>, i: nat, p: PeerInfo)
    requires i < |peers| && peers[i].mspID == p.mspID
    requires forall j :: 0 <= j < i ==> peers[j].mspID != p.mspID
    ensures AddPeer(peers, p) == peers[i := p]
  {
    if i > 0 {
      PeerAt(peers[1..], i - 1, p);
    }
  }

  lemma {:induction false} TouchAt(peers: seq<PeerInfo>, i: nat, mspID: string, now: int)
    requires i < |peers| && peers[i].mspID == mspID
    requires forall j :: 0 <= j < i ==> peers[j].mspID != mspID
    ensures Touch(peers, mspID, now) == peers[i := peers[i].(lastSeen := now)]
  {
    if i > 0 {
      TouchAt(peers[1..], i - 1, mspID, now);
    }
  }

  lemma {:induction false} NoPeerAt(peers: seq<PeerInfo>, p: PeerInfo, now: int)
    requires forall j :: 0 <= j < |peers| ==> peers[j].mspID != p.mspID
    ensures AddPeer(peers, p) == peers + [p]
    ensures Touch(peers, p.mspID, now) == peers
  {
    if peers != [] {
      NoPeerAt(peers[1..], p, now);
    }
  }

  function PeerOf(r: JoinRequest, now: int): PeerInfo {
    PeerInfo(r.orgName, r.mspID, r.domain, r.mgmtAddr, now, 0)
  }

  /** An approval flow ends. A failed one saves its snapshot of the request, whatever the copy has
      become meanwhile, as rejected. */
  function Finish(n: Node, k: nat, ok: bool, now: int): Node
    requires k < |n.running|
  {
    var r := n.running[k];
    var n' := n.(running := n.running[..k] + n.running[k + 1..]);
    if ok then n'.(peers := AddPeer(n.peers, PeerOf(r, now)))
    else n'.(requests := n.requests[r.id := r.(status := Rejected, resolvedAt := Some(now))])
  }

  /******* Distinct voters are counted once *******/

  ghost predicate DistinctVoters(votes: seq<Vote>) {
    forall i, j :: 0 <= i < j < |votes| ==> votes[i].voterMSP != votes[j].voterMSP
  }

  ghost function CountedVoters(totalPeers: int, votes: seq<Vote>): set<string> {
    set v | v in votes && Counts(totalPeers, v) :: v.voterMSP
  }

  lemma {:induction false} CountIsNumberOfVoters(totalPeers: int, votes: seq<Vote>)
    requires DistinctVoters(votes)
    ensures CountedVotes(totalPeers, votes) == |CountedVoters(totalPeers, votes)|
  {
    if votes == [] {
      assert CountedVoters(totalPeers, votes) == {};
    } else {
      var init, last := votes[..|votes| - 1], votes[|votes| - 1];
      CountIsNumberOfVoters(totalPeers, init);
      assert votes == init + [last];
      assert CountedVoters(totalPeers, votes)
        == CountedVoters(totalPeers, init) + if Counts(totalPeers, last) then {last.voterMSP} else {};
      assert last.voterMSP !in CountedVoters(totalPeers, init);
    }
  }

  lemma {:induction false} CountGrows(totalPeers: int, votes: seq<Vote>, more: seq<Vote>)
    requires votes <= more
    ensures CountedVotes(totalPeers, votes) <= CountedVotes(totalPeers, more)
    decreases |more|
  {
    if |votes| < |more| {
      CountGrows(totalPeers, votes, more[..|more| - 1]);
    } else {
      assert votes == more;
    }
  }

  lemma AppendKeepsDistinct(votes: seq<Vote>, v: Vote)
    requires DistinctVoters(votes) && !HasVoted(votes, v.voterMSP)
    ensures DistinctVoters(votes + [v])
  {
  }

  /** Merging keeps the votes held, adds only incoming votes, covers every incoming voter, and never
      lets an organisation in twice. */
  lemma {:induction false} MergeProperties(held: seq<Vote>, incoming: seq<Vote>)
    requires DistinctVoters(held)
    ensures held <= Merge(held, incoming)
    ensures DistinctVoters(Merge(held, incoming))
    ensures forall v :: v in Merge(held, incoming) ==> v in held || v in incoming
    ensures forall v :: v in incoming ==> HasVoted(Merge(held, incoming), v.voterMSP)
  {
    if incoming != [] {
      var init, last := incoming[..|incoming| - 1], incoming[|incoming| - 1];
      var m := Merge(held, init);
      MergeProperties(held, init);
      assert incoming == init + [last];
      if !HasVoted(m, last.voterMSP) {
        AppendKeepsDistinct(m, last);
        assert last in m + [last];
      }
      assert m <= Merge(held, incoming);
    }
  }

  /******* The loops over votes *******/

  method CountApprovals(r: JoinRequest) returns (n: nat)
    ensures n == ApprovalCount(r)
  {
    n := 0;
    for i := 0 to |r.votes|
      invariant n == CountedVotes(r.totalPeers, r.votes[..i])
    {
      var v := r.votes[i];
      assert r.votes[..i + 1][..i] == r.votes[..i];
      if !v.approve {
        continue;
      }
      if r.totalPeers == 0 || v.voterMSP != ORDERER_MSP {
        n := n + 1;
      }
    }
    assert r.votes[..|r.votes|] == r.votes;
  }

  method FindVoter(votes: seq<Vote>, mspID: string) returns (found: bool)
    ensures found <==> HasVoted(votes, mspID)
  {
    for i := 0 to |votes|
      invariant !HasVoted(votes[..i], mspID)
    {
      if votes[i].voterMSP == mspID {
        return true;
      }
    }
    assert votes[..|votes|] == votes;
    return false;
  }

  /******* Where gossip goes *******/

  /** Every known peer and the orderer, if its address is known; nothing keeps a node's own address
      out. */
  method GossipTargets(peers: seq<PeerInfo>, ordererAddr: string) returns (addrs: seq<string>)
    ensures forall a :: a in addrs <==> (exists p :: p in peers && p.mgmtAddr == a) || (a == ordererAddr && a != "")
    ensures (forall i, j :: 0 <= i < j < |peers| ==> peers[i].mgmtAddr != peers[j].mgmtAddr) ==> Distinct(addrs)
  {
    addrs := [];
    for i := 0 to |peers|
      invariant |addrs| == i && forall j :: 0 <= j < i ==> addrs[j] == peers[j].mgmtAddr
    {
      addrs := addrs + [peers[i].mgmtAddr];
    }
    assert forall p :: p in peers ==> exists j :: 0 <= j < |peers| && peers[j] == p;
    if ordererAddr == "" {
      return;
    }
    ghost var known := addrs;
    for i := 0 to |addrs|
      invariant addrs == known && forall j :: 0 <= j < i ==> addrs[j] != ordererAddr
    {
      if addrs[i] == ordererAddr {
        return;
      }
    }
    addrs := addrs + [ordererAddr];
  }

  /** Merging a fetched peer list into one's own. */
  function Synced(peers: seq<PeerInfo>, fetched: seq<PeerInfo>): seq<PeerInfo> {
    if fetched == [] then peers else AddPeer(Synced(peers, fetched[..|fetched| - 1]), fetched[|fetched| - 1])
  }

  lemma {:induction false} AddPeerHolds(peers: seq<PeerInfo>, p: PeerInfo)
    ensures p in AddPeer(peers, p)
    ensures forall q :: q in peers && q.mspID != p.mspID ==> q in AddPeer(peers, p)
  {
    if peers != [] && peers[0].mspID != p.mspID {
      AddPeerHolds(peers[1..], p);
    }
  }

  /** The fetched entry of an organisation is in the merged list. */
  lemma {:induction false} SyncedHolds(peers: seq<PeerInfo>, fetched: seq<PeerInfo>, p: PeerInfo)
    requires p in fetched && forall q :: q in fetched && q.mspID == p.mspID ==> q == p
    ensures p in Synced(peers, fetched)
  {
    var init, last := fetched[..|fetched| - 1], fetched[|fetched| - 1];
    AddPeerHolds(Synced(peers, init), last);
    if last != p {
      SyncedHolds(peers, init, p);
    }
  }

  /** It happens: a node that fetches the orderer's peer list, itself on it, sends its gossip to itself. */
  method SyncThenTargets(peers: seq<PeerInfo>, fetched: seq<PeerInfo>, self: PeerInfo, ordererAddr: string)
    returns (addrs: seq<string>)
    requires self in fetched && forall q :: q in fetched && q.mspID == self.mspID ==> q == self
    ensures self.mgmtAddr in addrs
  {
    SyncedHolds(peers, fetched, self);
    addrs := GossipTargets(Synced(peers, fetched), ordererAddr);
  }

  /******* The manager *******/

  /** The node manager with its store. A method returns the messages it hands to gossip. */
  class Manager {
    const role: Role
    const orgName: string
    const mspID: string
    var requests: map<string, JoinRequest>
    var peers: seq<PeerInfo>
    var running: seq<JoinRequest>
    ghost var started: seq<string>

    ghost function State(): Node
      reads this
    {
      Node(role, orgName, mspID, requests, peers, running, started)
    }

    /** Requests are stored under their own ID. */
    ghost predicate Keyed()
      reads this
    {
      forall id :: id in requests ==> requests[id].id == id
    }

    constructor (role: Role, orgName: string, mspID: string, peers: seq<PeerInfo>)
      ensures Keyed() && State() == Node(role, orgName, mspID, map[], peers, [], [])
    {
      this.role, this.orgName, this.mspID, this.peers := role, orgName, mspID, peers;
      requests, running, started := map[], [], [];
    }

    method SubmitJoinRequest(a: Application, id: string, now: int) returns (sent: seq<Message>)
      requires Keyed()
      modifies this
      ensures Keyed() && State() == Submit(old(State()), a, id, now)
      ensures sent == [RequestMsg(Submitted(old(State()), a, id, now))]
    {
      var req := JoinRequest(id, a.orgName, a.mspID, a.domain, a.mgmtAddr, Pending, [], 0, now, None);
      req := req.(totalPeers := |peers|);
      requests := requests[id := req];
      sent := [RequestMsg(req)];
    }

    /** Called with the copy just stored. */
    method CheckMajority(req: JoinRequest, now: int)
      requires Keyed() && req.id in requests && requests[req.id] == req
      modifies this
      ensures Keyed() && State() == Save(old(State()), req, now)
    {
      assert requests[req.id := req] == requests;
      if req.status != Pending {
        return;
      }
      var approvals := CountApprovals(req);
      if approvals < RequiredVotes(req) {
        return;
      }
      var approved := req.(status := Approved, resolvedAt := Some(now));
      requests := requests[req.id := approved];
      if role == Bootstrap || role == Orderer {
        running := running + [approved];
        started := started + [req.id];
      }
    }

    method ReceiveGossipedRequest(req: JoinRequest, now: int)
      requires Keyed()
      modifies this
      ensures Keyed() && State() == ReceiveRequest(old(State()), req, now)
    {
      if req.id in requests {
        var existing := requests[req.id];
        var changed := false;
        for i := 0 to |req.votes|
          invariant State() == old(State())
          invariant existing == old(requests[req.id]).(votes := Merge(old(requests[req.id].votes), req.votes[..i]))
          invariant |existing.votes| >= |old(requests[req.id].votes)|
          invariant changed <==> |existing.votes| > |old(requests[req.id].votes)|
          invariant !changed ==> existing == old(requests[req.id])
        {
          var v := req.votes[i];
          assert req.votes[..i + 1][..i] == req.votes[..i];
          var known := FindVoter(existing.votes, v.voterMSP);
          if !known {
            existing := existing.(votes := existing.votes + [v]);
            changed := true;
          }
        }
        assert req.votes[..|req.votes|] == req.votes;
        if changed {
          requests := requests[req.id := existing];
          CheckMajority(existing, now);
          ghost var s := Settled(existing, now);
          assert old(requests)[req.id := existing][req.id := s] == old(requests)[req.id := s];
        }
        return;
      }
      requests := requests[req.id := req];
    }

    method CastVote(id: string, approve: bool, now: int) returns (err: Option<Error>, sent: seq<Message>)
      requires Keyed()
      modifies this
      ensures Keyed() && err == CastError(old(State()), id)
      ensures err.Some? ==> State() == old(State()) && sent == []
      ensures err.None? ==> State() == Cast(old(State()), id, approve, now)
                            && sent == [VoteMsg(id, OwnVote(old(State()), approve, now))]
    {
      sent := [];
      if id !in requests {
        return Some(UnknownRequest), sent;
      }
      var req := requests[id];
      if req.status != Pending {
        return Some(AlreadyResolved), sent;
      }
      var voted := FindVoter(req.votes, mspID);
      if voted {
        return Some(AlreadyVoted), sent;
      }
      var vote := Vote(orgName, mspID, approve, now);
      req := req.(votes := req.votes + [vote]);
      requests := requests[id := req];
      sent := [VoteMsg(id, vote)];
      CheckMajority(req, now);
      err := None;
    }

    method ReceiveGossipedVote(id: string, vote: Vote, now: int)
      requires Keyed()
      modifies this
      ensures Keyed() && State() == ReceiveVote(old(State()), id, vote, now)
    {
      if id !in requests {
        return;
      }
      var req := requests[id];
      var known := FindVoter(req.votes, vote.voterMSP);
      if known {
        return;
      }
      req := req.(votes := req.votes + [vote]);
      requests := requests[id := req];
      CheckMajority(req, now);
    }

    method StorePeer(p: PeerInfo)
      modifies this`peers
      ensures peers == AddPeer(old(peers), p)
    {
      for i := 0 to |peers|
        invariant peers == old(peers)
        invariant forall j :: 0 <= j < i ==> peers[j].mspID != p.mspID
      {
        if peers[i].mspID == p.mspID {
          PeerAt(peers, i, p);
          peers := peers[i := p];
          return;
        }
      }
      NoPeerAt(peers, p, 0);
      peers := peers + [p];
    }

    method HandlePeerJoined(p: PeerInfo)
      modifies this`peers
      ensures State() == old(State()).(peers := AddPeer(old(peers), p))
    {
      StorePeer(p);
    }

    method HandleHeartbeat(sender: string, now: int)
      modifies this`peers
      ensures State() == old(State()).(peers := Touch(old(peers), sender, now))
    {
      for i := 0 to |peers|
        invariant peers == old(peers)
        invariant forall j :: 0 <= j < i ==> peers[j].mspID != sender
      {
        if peers[i].mspID == sender {
          TouchAt(peers, i, sender, now);
          peers := peers[i := peers[i].(lastSeen := now)];
          return;
        }
      }
      NoPeerAt(peers, PeerInfo("", sender, "", "", 0, 0), now);
    }

    /** The end of the approval flow at position k, which did or did not update the channel. */
    method FinishApproval(k: nat, ok: bool, now: int) returns (sent: seq<Message>)
      requires Keyed() && k < |running|
      modifies this
      ensures Keyed() && State() == Finish(old(State()), k, ok, now)
      ensures sent == if ok then [PeerJoinedMsg(PeerOf(old(running[k]), now))] else []
    {
      var req := running[k];
      running := running[..k] + running[k + 1..];
      if !ok {
        req := req.(status := Rejected, resolvedAt := Some(now));
        requests := requests[req.id := req];
        return [];
      }
      var newPeer := PeerInfo(req.orgName, req.mspID, req.domain, req.mgmtAddr, now, 0);
      StorePeer(newPeer);
      sent := [PeerJoinedMsg(newPeer)];
    }
  }
}
