# Kufichain protocols in Dafny

A model of the protocols that keep Kufichain's state, with proofs of what they guarantee over every run.

| file | what it models |
|---|---|
| `Governance.dfy` | on-chain voting on the admission of organisations: the governance chaincode's ledger, its transactions and its runs |
| `NodeManager.dfy`, `Network.dfy`, `NetworkProperties.dfy`, `NetworkEvents.dfy` | the same admission between nodes: one node's handlers; any number of nodes with messages that are lost, duplicated and reordered; what that network guarantees, for its states and told by the events of a run |
| `Expiring.dfy`, `Admission.dfy` | the gateway's idempotency and nonce stores, in memory and on file; which transfer requests reach Fabric |
| `RateLimiting.dfy` | the sliding-window rate limiter |
| `Policies.dfy` | endorsement policies as canonical strings, built from the peer registry and decoded from the committed envelope |
| `Lifecycle.dfy`, `Deployment.dfy` | approving and committing a chaincode definition by majority, node by node: safety, the node's code; and progress |
| `Receipts.dfy` | building, hashing, copying and verifying receipts; the two policy evaluators |
| `Payments.dfy` | the payment chaincode: public intents and private details |
| `Retry.dfy` | submission to Fabric with a semaphore and exponential backoff |
| `Common.dfy` | options, results, quorums, 64-bit wrap-around |

Code that changes state is a class whose methods are proved to compute a step function; the properties are lemmas about
that function over all runs. A transaction that returns an error commits nothing, as in Fabric. Every handler of a node
and every admission at the gateway is one atomic step. Clocks, identifiers, message delivery, map iteration order,
certificate inspection and the outcome of every call into Fabric are parameters, quantified over.

## What the code does not do

These are statements of the model, each with the lemma that proves it.

- A request made while the registry is empty ends rejected with its organisation registered, on the first approval
  (`Governance.RegistrationMeansApproval`, `Governance.FirstRequestDefect`).
- The policy types UNANIMOUS and THRESHOLD, and the percentage, are accepted and never consulted
  (`Governance.PolicyTypeNeverMatters`); they are honoured only where they name the simple majority
  (`Governance.PolicyHonoured`). The status EXPIRED is never stored (`Governance.LedgerInvariant`), because the
  transaction that would store it fails; an expired request stays pending and locks its MSP out
  (`Governance.ExpiredLocksOut`).
- Voters need not be registered, so more may vote than were counted; then the order of votes decides
  (`Governance.OrderMattersBeyond`).
- More than 2562047 expiry hours wrap around (`Governance.ExpiryHonoured`).
- Exactly-once submission depends on the two configured durations (`Admission.ExactlyOnce`). A restart from an older
  nonce file does not touch it, but lets a nonce pass again (`Admission.LostNonceReplays`).
- The gossip targets may include the node itself, against the comment beside them (`NodeManager.GossipTargets`,
  `NodeManager.SyncThenTargets`).
- An MSP ID that contains the eight characters `.peer','` makes policy strings ambiguous, and no other does
  (`Policies.AmbiguousNames`), and a decoded string mean something else than its envelope (`Policies.DecodedStringMeaning`);
  those that the command line makes never contain them (`Policies.SanitizeMSP`).
- A node's count of approvals does not by itself protect the commit that follows, because wanted policies are rebuilt
  meanwhile (`Lifecycle.OwnCheckSuffices`, `Lifecycle.DefectionBreaksCommit`). These are about the nodes' check in
  isolation: the channels that this code makes ask for a majority themselves (internal/fabricops/crypto.go:341-343 and
  469-471), which protects the commit whoever sends it (`Lifecycle.EnforcedMajority`).
- Allowing expired certificates does not make expired ones count (`Receipts.AllowingExpiredChangesLittle`).
- A receipt rebuilt from the ledger fails its own hash check unless nothing it took over differs
  (`Receipts.RebuiltHash`). The fields outside the hash are listed by `Receipts.UnprotectedFields`.
- Two organisations can share an intra-bank collection that is meant to be one organisation's
  (`Payments.CollectionsClash`).
- A retried submission can commit twice under every configuration with more than one attempt (`Retry.CommitsOnce`), and
  read conflicts found at commit are not retried (`Retry.ConflictsAreNotRetried`).

## Model

| member | source | states |
|---|---|---|
| `Governance.GovernanceContract.InitLedger` | chaincode/governance/governance.go:84-104 | the default policy is written once and never replaced by a second call |
| `Governance.GovernanceContract.CountExistingOrgs` | chaincode/governance/governance.go:471-483 | walking the registry counts each organisation once |
| `Governance.GovernanceContract.FindPending` | chaincode/governance/governance.go:126-140 | the scan finds a pending request of an MSP exactly when there is one |
| `Governance.GovernanceContract.RequestJoin` | chaincode/governance/governance.go:110-182 | error, or the ledger with the new pending request and the threshold of that moment; an error changes nothing |
| `Governance.GovernanceContract.CastVote` | chaincode/governance/governance.go:202-303 | one vote as a transaction: the error and the whole new ledger are those of the ledger step; an expired request fails and stays pending, because the write of EXPIRED belongs to a failed transaction |
| `Governance.GovernanceContract.UpdatePolicy` | chaincode/governance/governance.go:381-408 | the policy is replaced or the call is refused, and nothing else changes |
| `Governance.GovernanceContract.RegisterExistingOrgs` | chaincode/governance/governance.go:422-439 | the founders are registered in order, the last entry of an MSP winning |
| `Governance.VoteKeepsTally` | chaincode/governance/governance.go:267-287 | one more vote on a well-tallied pending request leaves it pending below both thresholds, approved with exactly RequiredAck approvals, or rejected with exactly TotalOrgs - RequiredAck + 1 rejections (TotalOrgs >= 1) |
| `Governance.VoteKeepsRecords` | chaincode/governance/governance.go:254-273 | after a vote, vote records and the approval and rejection maps still agree in both directions |
| `Governance.StepKeepsInv` | chaincode/governance/governance.go:110-303 | every transaction keeps the ledger invariant: records match tallies, tallies exclude the requester and are disjoint, at most one pending request an MSP, status fits the counts |
| `Governance.RunKeepsInv` | chaincode/governance/governance.go:110-303 | so does every run from a consistent ledger |
| `Governance.LedgerInvariant` | chaincode/governance/governance.go:84-303 | the invariant holds after every run from the empty ledger |
| `Governance.RunEvolves` | chaincode/governance/governance.go:221-290 | over any run no request, vote or organisation disappears, RequiredAck, TotalOrgs and the request's own data never change, and a resolved request is frozen |
| `Governance.RegistryProvenance` | chaincode/governance/governance.go:276-287 | from a non-empty registry on, an organisation is registered exactly when it is a founder or the MSP of an approved request |
| `Governance.BootstrappedNetwork` | chaincode/governance/governance.go:420-439 | a network that starts by registering its founders keeps ledger invariant and registry provenance over every run |
| `Governance.RegistrationMeansApproval` | chaincode/governance/governance.go:275-287 | a vote registers the organisation if and only if it approves the request, except for an approving vote on a request made when the registry was empty: then the organisation is registered and the request ends rejected |
| `Governance.FirstRequestDefect` | chaincode/governance/governance.go:143-287 | it happens on the first request and the first vote ever made |
| `Governance.FirstRequestDefectExample` | chaincode/governance/governance.go:143-287 | such a pair of transactions, spelt out |
| `Governance.BallotProgress` | chaincode/governance/governance.go:143-287 | in any run, whatever lies between the votes: with no more distinct voters than organisations counted at the request, it is approved once approvals reach the threshold, rejected once rejections make that impossible, and pending until then |
| `Governance.BallotDecides` | chaincode/governance/governance.go:143-287 | in any run in which as many distinct organisations have voted in time as were counted at the request, it ends approved if approvals reach N/2+1 and rejected otherwise |
| `Governance.BallotOrderIrrelevant` | chaincode/governance/governance.go:221-287 | two runs with the same approvers and as many rejections, of no more votes than organisations counted, give the same outcome, in whatever order and amid whatever else |
| `Governance.OrderMattersBeyond` | chaincode/governance/governance.go:221-287 | over all ledgers reached from the empty one: with m votes among n organisations order never matters if and only if m <= n; voters need not be registered |
| `Governance.RunKeepsSole` | chaincode/governance/governance.go:276-287 | unless it is registered by hand or asked for again, the newcomer is in the registry exactly while its request is approved, through any run |
| `Governance.AdmissionByMajority` | chaincode/governance/governance.go:110-290 | from the request through any run in which N votes are cast in time, N the organisations registered at the request: the newcomer is approved and registered exactly if more than half approve |
| `Governance.PolicyTypeNeverMatters` | chaincode/governance/governance.go:381-408 | runs whose policy updates differ in type and percentage only end in the same ledger but for those two fields: UNANIMOUS and THRESHOLD are accepted and never consulted |
| `Governance.PolicyHonoured` | chaincode/governance/governance.go:143-147 | on every ledger reached from the empty one with the policy in force, all full ballots among n organisations honour it, if and only if it happens to name n/2+1 approvals; unanimity exactly for n <= 2 |
| `Governance.ExpiredLocksOut` | chaincode/governance/governance.go:225-235 | in any run in which every vote on a request comes too late the request stays pending as it is, and every new request of its MSP is refused |
| `Governance.ExpiryHonoured` | chaincode/governance/governance.go:520-526 | requests live for the policy's hours exactly if the policy says at most 2562047 hours; above that the 64-bit duration wraps |
| `Governance.RequestsSayWhatWasAsked` | chaincode/governance/governance.go:110-182 | through every run an accepted request keeps what was asked for, by whom and when, with the number of organisations registered at that moment |
| `Governance.DeadlineByPolicy` | chaincode/governance/governance.go:221-235 | from the calls of a run alone: a vote by an organisation that may still vote fails as expired if and only if it is later than the request by more than the hours of the last accepted policy update, 168 if there is none; otherwise it commits (updates of at most 2562047 hours) |
| `Governance.PolicyOnRecord` | chaincode/governance/governance.go:84-104 | the policy after a run is the last accepted update, or else what the first initialisation wrote: MAJORITY, 51, 168 |
| `Governance.CommitsExactly` | chaincode/governance/governance.go:110-303 | over runs, for each kind of transaction exactly when it commits, a repeated vote being told by the vote records |
| `Governance.VoteOnRecord` | chaincode/governance/governance.go:254-287 | a committed vote stays on record as it was cast, and an admitted newcomer is registered with the data of its request |
| `Governance.RegisterAllLast` | chaincode/governance/governance.go:422-439 | of several entries for one organisation the last is kept |
| `NodeManager.CountApprovals` | internal/nodemgr/types.go:143-156 | the loop counts approvals, the orderer's only while there is no peer |
| `NodeManager.FindVoter` | internal/nodemgr/types.go:164-171 | true exactly if some vote is by this MSP |
| `NodeManager.CountIsNumberOfVoters` | internal/nodemgr/types.go:143-156 | with one vote an organisation the count is the number of organisations that approve |
| `NodeManager.MergeProperties` | internal/nodemgr/manager.go:92-104 | merging keeps the votes held as a prefix, adds incoming votes only, covers every incoming voter and admits no organisation twice |
| `NodeManager.GossipTargets` | internal/nodemgr/gossip.go:42-67 | the targets are the known peers' addresses and the orderer's, once; a node's own address is not kept out, although the comment says so |
| `NodeManager.SyncThenTargets` | cmd/kufichain/main.go:1644-1659 | it happens to a node that is on the peer list it fetches from the orderer |
| `NodeManager.Manager.SubmitJoinRequest` | internal/nodemgr/manager.go:58-86 | a pending request with the present number of peers is stored and gossiped |
| `NodeManager.Manager.CheckMajority` | internal/nodemgr/manager.go:182-210 | the stored copy becomes approved exactly if pending and at the majority, and on bootstrap and orderer nodes the approval flow starts on that snapshot |
| `NodeManager.Manager.ReceiveGossipedRequest` | internal/nodemgr/manager.go:89-116 | an unknown request is stored as it came; of a known one only the missing voters' votes are merged, then the majority is checked |
| `NodeManager.Manager.CastVote` | internal/nodemgr/manager.go:119-156 | the three errors change and send nothing; else the own vote is appended, sent and the majority checked |
| `NodeManager.Manager.ReceiveGossipedVote` | internal/nodemgr/manager.go:159-179 | a vote on an unknown request or by a known voter is ignored; any other is appended and the majority checked |
| `NodeManager.Manager.StorePeer` | internal/nodemgr/store.go:96-111 | the peer list with the peer put in |
| `NodeManager.Manager.HandlePeerJoined` | internal/nodemgr/manager.go:375-379 | the peer list with the peer put in, nothing else changed |
| `NodeManager.Manager.HandleHeartbeat` | internal/nodemgr/manager.go:382-384 | the sender's entry is touched, nothing else changed |
| `NodeManager.Manager.FinishApproval` | internal/nodemgr/manager.go:214-316 | success adds the newcomer as a peer and announces it; failure saves the snapshot as rejected over whatever the copy has become |
| `Network.MajorityIsReal` | internal/nodemgr/types.go:143-161 | a copy at the majority rests on that many organisations that really cast a counted approval |
| `Network.CastIsFirst` | internal/nodemgr/manager.go:129-131 | a node that may vote has never voted on that request, whatever was lost or overwritten |
| `Network.FinishKeepsNode` | internal/nodemgr/manager.go:216-225 | saving a stale snapshot as rejected loses no own vote and leaves the node consistent |
| `Network.NextKeepsInv` | internal/nodemgr/manager.go:58-231 | every step of the network (submit, cast, deliver anything ever sent to anyone, finish a flow, heartbeat) keeps the network invariant |
| `NetworkProperties.RunKeepsInv` | internal/nodemgr/manager.go:58-231 | so does every run, with messages lost, duplicated and reordered |
| `NetworkProperties.VoteIntegrity` | internal/nodemgr/manager.go:89-210 | in every reachable state: one cast vote per request and MSP; every vote in a copy or in flight is that vote; no copy has two votes of one MSP; a copy ever approved rests on RequiredVotes organisations that really approved, the orderer not among them when TotalPeers > 0 |
| `NetworkProperties.StatusMovesForward` | internal/nodemgr/manager.go:182-231 | a copy's status moves only from pending to approved to rejected, though the failure path writes back an old snapshot |
| `NetworkProperties.SingleExecution` | internal/nodemgr/manager.go:182-212 | on an orderer the flow of a request starts at most once, exactly when its copy leaves pending, never without a real majority; other nodes start none and never reject |
| `NetworkProperties.PeerProvenance` | internal/nodemgr/manager.go:308-316 | every listed peer was there from the start or was voted in by a real majority; no MSP is listed twice |
| `NetworkProperties.SameVotesSameOutcome` | internal/nodemgr/manager.go:89-210 | in every reachable state, nodes whose copies hold the same votes count the same approvals and agree whether the request is resolved |
| `NetworkProperties.HandlersAbsorb` | internal/nodemgr/manager.go:89-179 | both gossip handlers of a peer are the absorbing step that convergence speaks about |
| `NetworkProperties.Convergence` | internal/nodemgr/manager.go:89-210 | two peers given the same votes, in any order, batches and repetitions, end with the same votes, count and status, approved exactly at the majority |
| `NetworkProperties.DeliveryLands` | internal/nodemgr/manager.go:159-179 | in every reachable state a delivered vote is in the copy afterwards: only the same vote can have been there before |
| `NetworkProperties.NodeKeepsVotes` | internal/nodemgr/manager.go:89-179 | no step of a node without approval flows loses a vote from a copy |
| `NetworkEvents.BallotsAreCasts` | internal/nodemgr/manager.go:119-156 | in every run from the start, a vote is on record if and only if a node accepted a request to cast it: by that node, with that decision, at that time |
| `NetworkEvents.SentVotesAreCasts` | internal/nodemgr/manager.go:149-150 | and it is sent to the others if and only if it was cast |
| `NetworkEvents.SentIsRecorded` | internal/nodemgr/manager.go:58-86 | gossip carries exactly the votes on record and the requests as submitted |
| `NetworkEvents.CastsAccepted` | internal/nodemgr/manager.go:120-131 | a request to vote is accepted exactly while the node's copy is pending and the node has not been asked before to cast on it |
| `NetworkEvents.OriginsAreSubmissions` | internal/nodemgr/manager.go:58-86 | a request exists exactly if it was submitted |
| `NetworkEvents.SubmissionOnRecord` | internal/nodemgr/manager.go:58-86 | it says what was applied for, and counts the peers that the receiving node listed then |
| `NetworkEvents.ResolvedByMajority` | internal/nodemgr/types.go:135-161 | in every reachable state: of a copy with n > 0 peers, it has left pending if and only if twice the number of organisations that approve in it, the orderer left out, exceeds n; with none, if and only if anybody approves in it |
| `NetworkEvents.ApprovedByMajority` | internal/nodemgr/manager.go:182-210 | a copy ever approved, anywhere: so many organisations were asked to approve and accepted, counted by the events of the run |
| `NetworkEvents.NetworkConverges` | internal/nodemgr/manager.go:89-210 | in every run, a peer that has been handed each vote at least once, in whatever order and however often, has approved the request if and only if, among the events of the run, approvals were asked for at organisations of which twice the number, the orderer left out, exceeds the number of peers (with no peers: of which there is any) |
| `NetworkEvents.Blocking` | internal/nodemgr/types.go:135-161 | once half of the electors have been asked to reject and did, no node ever approves, however the run goes on |
| `NetworkEvents.EachFlowEndsOnce` | internal/nodemgr/manager.go:182-231 | on an orderer or bootstrap node, a request has left pending if and only if its approval flow runs or was ended by an event of the run, never both and never two flows of it at once |
| `NetworkEvents.DeliveredRequestHeld` | internal/nodemgr/manager.go:89-116 | a request that was delivered to a node is held by it to the end of every run |
| `NetworkEvents.FinishedFlowLists` | internal/nodemgr/manager.go:302-312 | a successful flow lists the newcomer with the data of its request, announces exactly that, and the newcomer stays on the list through every run |
| `NetworkEvents.FailedFlowRejects` | internal/nodemgr/manager.go:216-225 | a failed flow leaves the request rejected for good |
| `NetworkEvents.DeliveredPeerListed` | internal/nodemgr/manager.go:375-379 | an announced newcomer is listed by whoever gets the announcement, from then on |
| `Expiring.IdempotencyStore.Store` | internal/api/store.go:107-114 | the receipt is kept until now plus the time to live |
| `Expiring.IdempotencyStore.Get` | internal/api/store.go:117-131 | the receipt, up to and including its deadline |
| `Expiring.IdempotencyStore.Cleanup` | internal/api/store.go:134-148 | exactly the entries strictly past their deadline go |
| `Expiring.FileIdempotencyStore.Store` | internal/api/store_persistent.go:186-205 | the receipt is kept until now plus the time to live and the files are those of the entries |
| `Expiring.FileIdempotencyStore.Get` | internal/api/store_persistent.go:208-222 | the receipt, up to and including its deadline |
| `Expiring.FileIdempotencyStore.Cleanup` | internal/api/store_persistent.go:225-240 | exactly the entries strictly past their deadline go and the files are those of the entries |
| `Expiring.FileIdempotencyStore.LoadAll` | internal/api/store_persistent.go:150-183 | a restart gets back exactly the unexpired entries and deletes the other files |
| `Expiring.NonceStore.Add` | internal/api/store.go:171-175 | the nonce is recorded at its time |
| `Expiring.NonceStore.Exists` | internal/api/store_persistent.go:326-336 | a nonce is known strictly less than the window after its time |
| `Expiring.NonceStore.Cleanup` | internal/api/store_persistent.go:339-354 | exactly the nonces more than the window old go |
| `Expiring.NonceMapsAreSlots` | internal/api/store_persistent.go:279-354 | cleaning and reading back nonces is cleaning and reloading their deadlines |
| `Expiring.NonceStore.LoadAll` | internal/api/store_persistent.go:279-298 | a restart gets back exactly the nonces of the file that are still known |
| `Expiring.CleanupIsInvisible` | internal/api/store_persistent.go:150-240 | any interleaving of cleanups and restarts with writes answers every query as the uncleaned latest write would, under either boundary rule |
| `Expiring.SameWritesSameAnswers` | internal/api/store.go:107-206 | stores given the same writes, cleaned and reloaded whenever, answer alike: the in-memory and the file-backed ones |
| `Admission.Admit` | internal/api/handlers.go:218-246 | the outcome is decided by receipt, nonce and timestamp in that order, and the nonce is recorded exactly if the request is admitted |
| `Admission.RunKeepsInv` | internal/api/handlers.go:218-429 | over every run of requests, completions, cleanups and restarts from nonce files of any age: admitted requests passed their checks, their nonces are remembered for the window unless a restart lost some, stored receipts answer until their deadline |
| `Admission.NonceReplay` | internal/api/handlers.go:231-246 | unless a restart between lost a nonce, a nonce and timestamp pass twice only if recorded in the very millisecond of the timestamp and checked again in exactly the last millisecond of the window |
| `Admission.LostNonceReplays` | internal/api/store_persistent.go:279-323 | the exception is real for every window and request: after a restart from an older file the same request passes at once |
| `Admission.NoThirdAdmission` | internal/api/handlers.go:231-246 | with a window of at least 1 ms they never pass three times without such a restart |
| `Admission.MillisecondMoreIsSound` | internal/api/handlers.go:218-246 | a lifetime that exceeds the window by 1 ms is enough for exactly-once |
| `Admission.SoundNeverResubmits` | internal/api/handlers.go:218-429 | with a sufficient lifetime no run sends a request to Fabric again once a receipt of an identical one was stored |
| `Admission.UnsoundResubmits` | internal/api/handlers.go:218-429 | with any shorter lifetime a run of three events does |
| `Admission.ExactlyOnce` | internal/api/handlers.go:218-429 | exactly-once holds over all runs if and only if TTL >= (window in ms + 1) ms - 1 ns |
| `Admission.RepeatGetsReceipt` | internal/api/handlers.go:218-229 | over every run: while the receipt last stored under a key is within its lifetime, a request with that key is answered with that receipt, whatever its nonce and timestamp and whatever was cleaned or restarted in between |
| `Admission.UsedNonceRefused` | internal/api/handlers.go:231-235 | without one, a nonce that an admission recorded less than the window before is refused, unless a restart since lost nonces, and no other nonce is refused |
| `Admission.FreshRequestAdmitted` | internal/api/handlers.go:237-246 | with neither, the request is admitted if and only if its timestamp is not in the future and at most the window old, in milliseconds |
| `RateLimiting.RateLimiter.Allow` | internal/api/middleware.go:137-176 | accepted exactly if fewer than limit kept times are after the cutoff; then the pruned list with the new time is kept |
| `RateLimiting.PruningIsInvisible` | internal/api/middleware.go:143-153 | as far as any later cutoff can tell, the pruned list is the full history |
| `RateLimiting.DecisionsMatchHistory` | internal/api/middleware.go:143-172 | every decision is the one the full history of accepted requests gives for the window ending now |
| `RateLimiting.WindowBound` | internal/api/middleware.go:155-172 | any limit + 1 accepted requests of a client span at least the window |
| `RateLimiting.ClientsAreIndependent` | internal/api/middleware.go:139-172 | what is kept for a client depends on its own requests only |
| `RateLimiting.PassesExactly` | internal/api/middleware.go:143-172 | a request of any run passes if and only if fewer than limit of the client's earlier requests that passed lie in the window ending with it, counted as a set of positions in the run |
| `Policies.CollectKnownPeers` | cmd/kufichain/main.go:1748-1781 | the peers' MSP IDs and the node's own, each once, in order, whatever the order of map iteration |
| `Policies.NamedOnce` | cmd/kufichain/main.go:1728-1738 | empty and repeated MSP IDs are skipped, all others kept |
| `Policies.BuildSignaturePolicy` | cmd/kufichain/main.go:1726-1746 | the canonical string of the known organisations; for names without the separator it is met, as Fabric reads it, exactly if a peer of some organisation signed that a listed peer names or that the node is itself a peer of |
| `Policies.SortedUnique` | cmd/kufichain/main.go:1739-1739 | a sorted list is determined by its contents, so rendering after sorting is canonical |
| `Policies.SortIsCanonical` | internal/fabricops/chaincode.go:853-858 | sorting gives the canonical order of a set exactly if the list names each member once |
| `Policies.RenderInjective` | cmd/kufichain/main.go:1740-1745 | for names that do not contain the eight characters between two names, two renderings are equal exactly if the lists are |
| `Policies.AmbiguousNames` | cmd/kufichain/main.go:1740-1745 | a name renders as some other list does if and only if it contains these eight characters |
| `Policies.Pigeonhole` | internal/fabricops/chaincode.go:872-886 | n different indices below n are all of them |
| `Policies.IsORPolicyRule` | internal/fabricops/chaincode.go:861-887 | accepted exactly if the rule is one-of-n whose leaves are a permutation of all n identities |
| `Policies.SignatureEnvelopeToPolicy` | internal/fabricops/chaincode.go:831-859 | the canonical OR string, or the first thing wrong: no envelope, not a role, not a peer, not of the OR shape |
| `Policies.CanonicalEquality` | internal/fabricops/chaincode.go:727-731 | the decoded string equals the one a node wants if and only if the envelope names each known organisation once and no other, in whatever order (names without the separator) |
| `Policies.DecodingKeepsMeaning` | internal/fabricops/chaincode.go:831-887 | an envelope that decodes is met by a set of signatures, by its rule, exactly if a peer of some listed organisation signed |
| `Policies.RenderMeaning` | cmd/kufichain/main.go:1740-1745 | read as Fabric reads OR, AND and single principals, by a reader that knows nothing of how the string was made: met exactly if a peer of some listed organisation signed (names without the separator) |
| `Policies.DecodedStringMeaning` | internal/fabricops/chaincode.go:831-859 | the decoded string is met by the same signatures as the envelope, for all signatures, if and only if no name contains the separator |
| `Policies.DecodesExactly` | internal/fabricops/chaincode.go:831-887 | an envelope decodes if and only if all its principals are peers and its rule is one of n different leaves, one for each of its n principals |
| `Policies.FirstErrorReported` | internal/fabricops/chaincode.go:838-850 | the first principal that is not a peer gives the error, ahead of the shape of the rule |
| `Policies.SplitLetters` | cmd/kufichain/main.go:1901-1910 | splitting at white space and capitalising keep every letter and digit, in order |
| `Policies.SanitizeMSP` | cmd/kufichain/main.go:1901-1919 | the name's letters and digits in order, words capitalised, with MSP at the end: never an ambiguous name |
| `Lifecycle.ChaincodeOps.Rebuild` | cmd/kufichain/main.go:1111-1117 | after every tick a node wants the canonical policy of exactly the organisations it knows; the guard against an empty string never strikes |
| `Lifecycle.UpgradesWhenIncomplete` | internal/fabricops/chaincode.go:720-732 | such a node goes on to the next sequence if and only if the committed policy does not name each organisation it knows once and no other |
| `Lifecycle.ChaincodeOps.CheckCommitReadiness` | internal/fabricops/chaincode.go:443-462 | the committed definition's approvals at the committed sequence, else those of the node's own definition |
| `Lifecycle.ChaincodeOps.IsApprovedForMyOrg` | internal/fabricops/chaincode.go:267-276 | whether those approvals include the node's organisation |
| `Lifecycle.ChaincodeOps.ApproveChaincode` | internal/fabricops/chaincode.go:347-392 | nothing to do if approved already, else the channel's answer to the approval |
| `Lifecycle.ChaincodeOps.CommitChaincode` | internal/fabricops/chaincode.go:466-514 | success without a command if the sequence is committed already, else the channel's answer to the commit |
| `Lifecycle.ChaincodeOps.CountApproved` | internal/fabricops/chaincode.go:769-774 | the number of approving organisations |
| `Lifecycle.ChaincodeOps.TryCommitIfReady` | internal/fabricops/chaincode.go:720-780 | a call made alone does to the channel what its commands do one after the other, or nothing if the chaincode is not installed or the peer does not answer in time; it reports success, which stops the timer, with the wanted policy committed exactly if its organisation has approved that sequence or does so now, and otherwise exactly if it commits the next one |
| `Lifecycle.CallIsItsCommands` | internal/fabricops/chaincode.go:720-780 | a whole call is its commands with nothing in between |
| `Lifecycle.EnforcedMajority` | internal/fabricops/crypto.go:341-343 | a strict channel alone: whoever sends it lifecycle commands, what is committed was approved, and stays approved, by a majority |
| `Lifecycle.RunsAreCommands` | internal/fabricops/chaincode.go:720-780 | the nodes' runs, of any number of calls with policies changing at any time, send a channel nothing but such commands |
| `Lifecycle.SettledIsSafe` | internal/fabricops/chaincode.go:753-779 | on a channel that checks the sequence only, the nodes' own count gives the same if every policy that a majority may want is the only one its supporters may want |
| `Lifecycle.UnsettledIsUnsafe` | internal/fabricops/chaincode.go:765-779 | otherwise some run commits what nobody approved: a node counts, its wanted policy is rebuilt, and it commits that |
| `Lifecycle.OwnCheckSuffices` | internal/fabricops/chaincode.go:753-779 | so the nodes' own check keeps all runs safe if and only if policies are settled in this sense |
| `Lifecycle.DefectionBreaksCommit` | internal/fabricops/chaincode.go:765-779 | the other way to lose it: whenever a commit rests on a bare majority, a member that approves another policy between count and commit breaks it |
| `Lifecycle.RacersAgree` | internal/fabricops/chaincode.go:765-779 | with settled policies two calls about to commit the next sequence counted the same policy |
| `Deployment.ContentStaysPut` | internal/fabricops/chaincode.go:724-747 | when all want the committed policy no interleaving changes it or its sequence, calls left over from before included |
| `Deployment.MajorityDeploys` | internal/fabricops/chaincode.go:720-780 | after any run, once all want the same new policy and whatever calls are still under way: under every interleaving it is committed, as exactly one new sequence, by the time that any majority of organisations has completed a call begun since, on either kind of channel |
| `Deployment.RunInRange` | internal/fabricops/chaincode.go:724-732 | in every state of every run no call is further ahead than the next sequence |
| `Lifecycle.CommitsAreOverHalf` | internal/fabricops/chaincode.go:753-779 | by number: with settled policies every change of the committed definition is to the next sequence, with the last approvals of more than half of the organisations for it |
| `Receipts.VerifyPolicy` | internal/receipt/verify.go:266-305 | AND, OR, MAJORITY, MIN and the two defaults, as stated by the reference predicate |
| `Receipts.VerifyEndorsementPolicy` | internal/fabric/endorsement.go:157-206 | AND, OR, MAJORITY over the organisations with a valid endorsement; any other type fails |
| `Receipts.CountRequired` | internal/receipt/verify.go:285-291 | the number of required entries that are valid, repeats counted each time |
| `Receipts.PolicyMonotone` | internal/receipt/verify.go:266-305 | more valid organisations never break a policy |
| `Receipts.MajoritiesMeet` | internal/receipt/verify.go:285-292 | two sets that meet one MAJORITY policy share a required organisation, even with repeats in the list |
| `Receipts.EvaluatorsAgree` | internal/fabric/endorsement.go:171-206 | the two evaluators agree on all sets exactly for AND, OR and MAJORITY |
| `Receipts.IsTransparencyPolicyMet` | internal/api/handlers.go:610-628 | met exactly by two different named organisations; that one is not the origin follows |
| `Receipts.VerifyEndorsement` | internal/receipt/verify.go:187-263 | each flag and the reported error, and when the endorsement counts |
| `Receipts.CanTrustLedgerValidationFallback` | internal/receipt/verify.go:307-332 | committed as valid, endorsed, nothing counts and nothing on the receipt claims or carries proof |
| `Receipts.VerifyEndorsements` | internal/receipt/verify.go:148-157 | one result an endorsement, and the set of organisations that count |
| `Receipts.VerifyContent` | internal/receipt/verify.go:115-146 | the errors of hash, expected hash, opening and validation code, each exactly if its check fails, in order |
| `Receipts.VerifyProof` | internal/receipt/verify.go:148-181 | the errors of policy and endorsements, and when the fallback applies |
| `Receipts.VerifyReceipt` | internal/receipt/verify.go:108-184 | the flag kept beside the error list agrees with it: valid exactly if no error is reported, exactly if all six conditions hold; every other flag and the warnings as their conditions say |
| `Receipts.Build` | internal/receipt/receipt.go:245-315 | every field of the receipt, one record an endorsement in order, and a hash that covers them |
| `Receipts.BuiltVerdict` | internal/receipt/receipt.go:270-310 | the organisations a verifier counts on a built receipt, and the fallback, in terms of the input alone: the fingerprint check never fails |
| `Receipts.RebuiltHash` | internal/api/handlers.go:758-771 | a rebuilt receipt passes its own hash check exactly if nothing it took over after hashing differs: it fails whenever the old one was observed at another time |
| `Receipts.RoundTrip` | internal/api/handlers.go:630-842 | out to a client and back, by the contracts of the two conversions, a receipt loses its signature at most and keeps every verdict |
| `Receipts.PolicyThresholds` | internal/receipt/verify.go:266-305 | of n different required organisations AND takes n, OR one, and MAJORITY more than half, in both evaluators |
| `Payments.PaymentContract.CreateTransferIntent` | chaincode/payment/payment.go:85-154 | error, or the new pending intent together with its private details, for some choice map iteration can make; an error leaves neither |
| `Payments.PaymentContract.ProcessPrivateData` | chaincode/payment/payment.go:157-228 | where the details go, and the errors of unreadable data and of an empty collection name |
| `Payments.PaymentContract.Iterate` | chaincode/payment/payment.go:184-190 | iteration finds an entry with data exactly if there is one, no matter which |
| `Payments.PaymentContract.SettleTransfer` | chaincode/payment/payment.go:231-291 | error, or the intent settled |
| `Payments.PaymentContract.CancelTransfer` | chaincode/payment/payment.go:294-355 | error, or the intent cancelled |
| `Payments.CollectionsClash` | chaincode/payment/payment.go:64-72 | two organisations share an intra-bank collection exactly if one is named as the other's unsuffixed name with MSP appended |
| `Payments.TransferHistory` | chaincode/payment/payment.go:231-355 | over every run a key's history is a pending intent, possibly followed by the same intent settled or cancelled with all else unchanged; FAILED never occurs; the current value is the last entry |
| `Payments.OnlyTheCreatorActs` | chaincode/payment/payment.go:249-256 | every committed transaction on a transfer was its creator's |
| `Payments.ResolvedOnce` | chaincode/payment/payment.go:245-247 | at most one attempt to settle or cancel a transfer ever commits |
| `Payments.DetailsHavePublicIntents` | chaincode/payment/payment.go:85-228 | private details belong to a public intent of the same transaction whose creator is the sender, and to one collection only |
| `Payments.NamedCollectionWins` | chaincode/payment/payment.go:169-198 | data under the policy's collection goes there and nowhere else, whatever map iteration picks; unreadable data leaves no intent; an empty value suppresses the search |
| `Payments.CommitsExactly` | chaincode/payment/payment.go:85-355 | over runs: any client with an identity creates under a new ID, if all the private data it sends can be read; exactly the creator settles or cancels, exactly while the transfer is pending |
| `Payments.EffectsLast` | chaincode/payment/payment.go:85-355 | what a committed transaction does lasts to the end of the run: the fields of the creation, settled or cancelled at the transaction's time |
| `Payments.OnlyByTransaction` | chaincode/payment/payment.go:231-355 | and a transfer is created, settled or cancelled by such a transaction only |
| `Payments.DataFollowsPolicy` | chaincode/payment/payment.go:169-178 | over every run of transactions, data that the client names right is found in collectionInterBank for inter_bank_standard, in collectionHighRisk for high_risk, and else in collectionIntraBank_ with the creator's name without MSP; there and nowhere else |
| `Retry.IsRetryable` | internal/fabric/client.go:446-469 | true exactly if one of the ten patterns occurs |
| `Retry.ConflictsAreNotRetried` | internal/fabric/client.go:284-286 | the error of a transaction that failed validation, with its code in decimal, matches no pattern: the two patterns for read conflicts never match it |
| `Retry.CommitsOnce` | internal/fabric/client.go:410-443 | over all runs no submission is committed twice if and only if one attempt is configured |
| `Retry.LostStatusCommitsTwice` | internal/fabric/client.go:278-286 | with two or more, a commit status lost to a transient error is enough, for every such configuration |
| `Retry.BackoffBounded` | internal/fabric/client.go:390-439 | no wait but the first exceeds the limit, none is negative |
| `Retry.BackoffIsGeometric` | internal/fabric/client.go:390-439 | with an integer multiplier m the k-th wait is min(initial * m^k, limit) |
| `Retry.TotalWaitBounded` | internal/fabric/client.go:410-443 | all waiting together is at most initial + (attempts - 2) * limit, and none with one attempt |
| `Retry.Client.SubmitWithRetry` | internal/fabric/client.go:375-443 | at most the configured attempts, repeated after transient errors only, with the stated waits; the slot is given back on every path |
| `Retry.Client.RetryLoop` | internal/fabric/client.go:410-443 | the loop alone |
| `Retry.SlotsMatchHolders` | internal/fabric/client.go:377-382 | whatever the interleaving of submissions, the slots taken are those calling or waiting to retry, never more than the capacity, and each submission keeps its bounds |
| `Retry.AllSlotsComeBack` | internal/fabric/client.go:377-382 | when all submissions have ended every slot is free |
| `Retry.RetriedTexts` | internal/fabric/client.go:446-469 | retried exactly if one of ten written-out texts occurs in the message: some prefix, the text, some suffix |
| `Retry.RunFollowsConfiguration` | internal/fabric/client.go:389-439 | over every run, from the configured numbers alone: how many attempts, the first wait, and each wait from the one before; with the defaults 1, 100 ms, 5 s and 2 |
| `Retry.GivesUpExactly` | internal/fabric/client.go:410-443 | a submission ends with an error only after one that is not retried or after all its attempts, and all earlier errors were retried ones |

## Left out

Assumptions of the model:

- Handlers are atomic: the node's store locks each load and each save of a request separately (internal/nodemgr/store.go:137-152), so two handlers of one node on one request could interleave in the Go code.
- One node per MSP, with a role that does not change; request IDs, 16 random bytes, are new when made; requests are submitted without votes, as the command line submits them (cmd/kufichain/main.go:710-721).
- Every message a node receives was sent by a node of the network; a message made up by someone else is not modelled. Any node may receive any message ever sent, which covers every choice of gossip targets.
- A peer list grows by peer announcements, by finished approval flows and by what a node starts with; the list that a joining node takes over from its approval notification is such a start.
- Fabric gives every transaction a new ID; transaction timestamps have years of four digits, so that RFC 3339 strings carry them to the second.
- The clock never goes back. Receipts are on file before a restart reads them (internal/api/store_persistent.go:197-204 writes them a little later); idempotency keys can be file names.
- The organisations of the channel do not change while a definition is being approved and committed. The committed policy is known in canonical form, or as the empty string when it cannot be decoded.
- SHA-256 is injective, and a digest is what was hashed. An endorsement list that is missing and one that is empty are the same, although their JSON differs.
- Backoff is computed over real numbers, rounded down to nanoseconds.

Not modelled:

- HTTP, gRPC, JSON, protobuf and PEM parsing, certificate cryptography, Docker, the `peer`, `osnadmin`, `configtxlator` and `jq` commands, file formats, templates, logging, configuration, the dashboard, the installer and the benchmark tool.
- EnsureChaincodeDeployed: the same target and majority logic as TryCommitIfReady with prompts, installation and waiting around it; repeating a command while the channel synchronises, which is the command taken later.
- The other failures of lifecycle commands: an abandoned call stands for all of them.
- Governance and payment queries, events, composite-key and marshalling errors; private collections that the channel does not configure. The governance chaincode does not check that a voter is registered, and neither does the model.
- The approval flow's channel update: whether it succeeded is a parameter.
- Failed submissions after admission (missing collection or endorsing peer), which store no receipt; the nonce stays recorded, as here.
- The receipt store keyed by transaction ID, the deprecated worker pool, header and API-key middleware, ValidationCodeToName, determinePolicyID, validateTransferRequest and QuickVerify: each settled by reading one branch.
- The texts of errors and warnings: they are constructors here.
- Revocation: checkRevocation is a placeholder that always answers no.
- Policies.Sort: the library sort is modelled by an insertion sort on sequences with the library's contract, not in place.
