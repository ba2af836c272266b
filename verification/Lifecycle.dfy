/** Deploying a chaincode definition by majority: each organisation's node reads the channel, approves
    the next sequence with the endorsement policy it wants, and commits once a majority has approved.

    What a node wants is a field that its peer registry rewrites at any time, also while a call is under way;
    every command reads it anew. A node can have several calls under way. */
module Lifecycle {
  import opened Common
  import NodeManager
  import Policies

  /** A committed definition (none while the sequence is 0) and the latest approval of each
      organisation for each sequence. */
  datatype Channel = Channel(
    orgs: set<string>, sequence: nat, policy: string, approvals: map<(string, nat), string>)

  /******* Lifecycle commands *******/

  predicate Approves(ch: Channel, org: string, sequence: nat, policy: string) {
    (org, sequence) in ch.approvals && ch.approvals[(org, sequence)] == policy
  }

  function Approvers(ch: Channel, sequence: nat, policy: string): set<string> {
    set o | o in ch.orgs && Approves(ch, o, sequence, policy)
  }

  predicate Majority(ch: Channel, sequence: nat, policy: string) {
    |Approvers(ch, sequence, policy)| >= |ch.orgs| / 2 + 1
  }

  /** What `checkcommitreadiness` and `querycommitted` report: each organisation and whether it approved. */
  function Report(ch: Channel, sequence: nat, policy: string): map<string, bool> {
    map o | o in ch.orgs :: Approves(ch, o, sequence, policy)
  }

  /** Only the next sequence can be checked. */
  function Readiness(ch: Channel, sequence: nat, policy: string): Option<map<string, bool>> {
    if sequence == ch.sequence + 1 then Some(Report(ch, sequence, policy)) else None
  }

  /** An organisation may approve the next sequence, or the committed one unchanged. */
  function Approve(ch: Channel, org: string, sequence: nat, policy: string): Option<Channel> {
    if sequence == ch.sequence + 1 || (sequence == ch.sequence && sequence > 0 && policy == ch.policy)
    then Some(ch.(approvals := ch.approvals[(org, sequence) := policy]))
    else None
  }

  /** Only the next sequence can be committed. A strict channel also checks for a majority, as Fabric does by
      default; any other leaves that to the nodes. */
  function Commit(ch: Channel, sequence: nat, policy: string, strict: bool): Option<Channel> {
    if sequence == ch.sequence + 1 && (strict ==> Majority(ch, sequence, policy))
    then Some(ch.(sequence := sequence, policy := policy))
    else None
  }

  /******* One call *******/

  /** The target: the committed sequence when its policy is the wanted one or none is wanted, else the
      next sequence. */
  function TargetOf(committed: nat, policy: string, want: string): nat {
    if committed == 0 then 1
    else if want == "" || policy == want then committed
    else committed + 1
  }

  /** The approvals a node sees at a sequence: of the committed definition if that is the one, else of
      its own. */
  function Seen(ch: Channel, sequence: nat, want: string): Option<map<string, bool>> {
    if ch.sequence == sequence && sequence > 0 && ch.orgs != {} then Some(Report(ch, sequence, ch.policy))
    else Readiness(ch, sequence, want)
  }

  predicate ApprovedBy(ch: Channel, org: string, sequence: nat, want: string) {
    var seen := Seen(ch, sequence, want);
    seen.Some? && org in seen.value && seen.value[org]
  }

  function TrueCount(seen: map<string, bool>): nat {
    |set o | o in seen && seen[o]|
  }

  /** Where a call of a node is, between two commands. `checked` is the policy whose approvals were counted. */
  datatype Phase =
    | Idle
    | SequenceRead(committed: nat)
    | Targeting(committed: nat, target: nat)
    | Rechecking(target: nat, current: bool)
    | Approving(target: nat, current: bool)
    | Checking(target: nat)
    | Ready(target: nat, checked: string)
    | Committing(target: nat, checked: string)

  /** One command of a call of `org`, and where the call is after it. */
  function CallStep(strict: bool, ch: Channel, org: string, want: string, p: Phase): (Channel, Phase) {
    match p
    case Idle => (ch, SequenceRead(ch.sequence))
    case SequenceRead(c) => (ch, Targeting(c, TargetOf(c, if ch.sequence == 0 then "" else ch.policy, want)))
    case Targeting(c, t) =>
      if ApprovedBy(ch, org, t, want)
      then (ch, if t == c then Idle else Checking(t))
      else (ch, Rechecking(t, t == c))
    case Rechecking(t, current) =>
      if ApprovedBy(ch, org, t, want)
      then (ch, if current then Idle else Checking(t))
      else (ch, Approving(t, current))
    case Approving(t, current) =>
      (match Approve(ch, org, t, want)
       case None => (ch, Idle)
       case Some(ch') => (ch', if current then Idle else Checking(t)))
    case Checking(t) =>
      var seen := Seen(ch, t, want);
      (ch, if seen.Some? && TrueCount(seen.value) >= |seen.value| / 2 + 1 then Ready(t, want) else Idle)
    case Ready(t, checked) => (ch, if ch.sequence >= t then Idle else Committing(t, checked))
    case Committing(t, _) =>
      (match Commit(ch, t, want, strict)
       case None => (ch, Idle)
       case Some(ch') => (ch', Idle))
  }

  /******* All nodes, interleaved *******/

  /** Calls are told apart by their organisation and a number. */
  datatype System = System(channel: Channel, want: map<string, string>, calls: map<(string, nat), Phase>)

  function PhaseOf(s: System, call: (string, nat)): Phase {
    if call in s.calls then s.calls[call] else Idle
  }

  /** A call takes its next command or is given up; a node's wanted policy changes. */
  datatype Event =
    | Step(call: (string, nat))
    | GiveUp(call: (string, nat))
    | Rewant(org: string, policy: string)

  function Next(strict: bool, s: System, e: Event): System {
    match e
    case Rewant(org, policy) => if org in s.want then s.(want := s.want[org := policy]) else s
    case GiveUp(call) => s.(calls := s.calls[call := Idle])
    case Step(call) =>
      if call.0 !in s.want then s
      else
        var (ch, p) := CallStep(strict, s.channel, call.0, s.want[call.0], PhaseOf(s, call));
        System(ch, s.want, s.calls[call := p])
  }

  function Run(strict: bool, s: System, es: seq<Event>): System {
    if es == [] then s else Next(strict, Run(strict, s, es[..|es| - 1]), es[|es| - 1])
  }

  ghost predicate WellFormed(s: System) {
    s.channel.orgs != {} && s.want.Keys == s.channel.orgs
  }

  ghost predicate AllIdle(s: System) {
    forall c :: c in s.calls ==> s.calls[c] == Idle
  }

  lemma {:induction false} RunAppend(strict: bool, s: System, es: seq<Event>, fs: seq<Event>)
    ensures Run(strict, s, es + fs) == Run(strict, Run(strict, s, es), fs)
  {
    if fs == [] {
      assert es + fs == es;
    } else {
      RunAppend(strict, s, es, fs[..|fs| - 1]);
      assert (es + fs)[..|es + fs| - 1] == es + fs[..|fs| - 1];
    }
  }

  lemma ReportCounts(ch: Channel, sequence: nat, policy: string)
    ensures TrueCount(Report(ch, sequence, policy)) == |Approvers(ch, sequence, policy)|
    ensures |Report(ch, sequence, policy)| == |ch.orgs|
  {
    var seen := Report(ch, sequence, policy);
    assert (set o | o in seen && seen[o]) == Approvers(ch, sequence, policy);
    assert seen.Keys == ch.orgs;
  }

  /** An approval keeps a majority unless it takes one of its members away. */
  lemma ApprovalKeepsMajority(ch: Channel, org: string, t: nat, policy: string, sequence: nat, other: string)
    requires t == sequence && Approves(ch, org, t, other) ==> policy == other
    requires Majority(ch, sequence, other)
    ensures Majority(ch.(approvals := ch.approvals[(org, t) := policy]), sequence, other)
  {
    var ch' := ch.(approvals := ch.approvals[(org, t) := policy]);
    SubsetCardinality(Approvers(ch, sequence, other), Approvers(ch', sequence, other));
  }

  /** What one command does to the channel. */
  lemma CommandEffect(strict: bool, ch: Channel, org: string, want: string, p: Phase)
    ensures var ch' := CallStep(strict, ch, org, want, p).0;
            || ch' == ch
            || (p.Approving? && (p.target == ch.sequence + 1 || (p.target == ch.sequence && want == ch.policy))
                && ch' == ch.(approvals := ch.approvals[(org, p.target) := want]))
            || (p.Committing? && p.target == ch.sequence + 1
                && (strict ==> Majority(ch, p.target, want))
                && ch' == ch.(sequence := p.target, policy := want))
  {
  }

  /******* When the channel checks the majority *******/

  datatype Command = ApproveFor(org: string, sequence: nat, policy: string) | CommitNext(sequence: nat, policy: string)

  /** A refused command changes nothing. */
  function Executed(strict: bool, ch: Channel, cmd: Command): Channel {
    var r := match cmd
      case ApproveFor(org, t, policy) => Approve(ch, org, t, policy)
      case CommitNext(t, policy) => Commit(ch, t, policy, strict);
    if r.Some? then r.value else ch
  }

  function ExecutedAll(strict: bool, ch: Channel, cmds: seq<Command>): Channel {
    if cmds == [] then ch else Executed(strict, ExecutedAll(strict, ch, cmds[..|cmds| - 1]), cmds[|cmds| - 1])
  }

  /** What is committed beyond `base` is approved by a majority, at its sequence and with its policy. */
  ghost predicate Backed(ch: Channel, base: nat) {
    base <= ch.sequence && (ch.sequence > base ==> Majority(ch, ch.sequence, ch.policy))
  }

  lemma CommandKeepsBacked(ch: Channel, cmd: Command, base: nat)
    requires Backed(ch, base)
    ensures Backed(Executed(true, ch, cmd), base)
  {
    var ch' := Executed(true, ch, cmd);
    if ch' != ch {
      match cmd
      case CommitNext(t, policy) => assert Approvers(ch', t, policy) == Approvers(ch, t, policy);
      case ApproveFor(org, t, policy) =>
        if ch.sequence > base { ApprovalKeepsMajority(ch, org, t, policy, ch.sequence, ch.policy); }
    }
  }

  /** A property of the strict channel alone: whoever sends it commands, and whatever they are, what is committed
      after the start was approved by a majority, and stays approved by one. */
  lemma {:induction false} EnforcedMajority(ch: Channel, base: nat, cmds: seq<Command>)
    requires Backed(ch, base)
    ensures Backed(ExecutedAll(true, ch, cmds), base)
  {
    if cmds != [] {
      EnforcedMajority(ch, base, cmds[..|cmds| - 1]);
      CommandKeepsBacked(ExecutedAll(true, ch, cmds[..|cmds| - 1]), cmds[|cmds| - 1], base);
    }
  }

  /** The changing command a call is about to give. */
  function Issued(org: string, want: string, p: Phase): seq<Command> {
    match p
    case Approving(t, _) => [ApproveFor(org, t, want)]
    case Committing(t, _) => [CommitNext(t, want)]
    case _ => []
  }

  function IssuedIn(strict: bool, s: System, es: seq<Event>): seq<Command> {
    if es == [] then []
    else
      var t, e := Run(strict, s, es[..|es| - 1]), es[|es| - 1];
      IssuedIn(strict, s, es[..|es| - 1])
      + if e.Step? && e.call.0 in t.want then Issued(e.call.0, t.want[e.call.0], PhaseOf(t, e.call)) else []
  }

  lemma StepExecutes(strict: bool, ch: Channel, org: string, want: string, p: Phase)
    ensures |Issued(org, want, p)| <= 1
    ensures CallStep(strict, ch, org, want, p).0
            == if Issued(org, want, p) == [] then ch else Executed(strict, ch, Issued(org, want, p)[0])
  {
  }

  lemma OneMoreExecuted(strict: bool, ch: Channel, cmds: seq<Command>, cmd: Command)
    ensures ExecutedAll(strict, ch, cmds + [cmd]) == Executed(strict, ExecutedAll(strict, ch, cmds), cmd)
  {
    assert (cmds + [cmd])[..|cmds|] == cmds;
  }

  lemma StepIsItsCommand(strict: bool, ch: Channel, org: string, want: string, p: Phase, cmds: seq<Command>, ch0: Channel)
    requires ch == ExecutedAll(strict, ch0, cmds)
    ensures CallStep(strict, ch, org, want, p).0 == ExecutedAll(strict, ch0, cmds + Issued(org, want, p))
  {
    var issued := Issued(org, want, p);
    StepExecutes(strict, ch, org, want, p);
    if issued == [] {
      assert cmds + issued == cmds;
    } else {
      assert issued == [issued[0]];
      OneMoreExecuted(strict, ch0, cmds, issued[0]);
    }
  }

  /** Nodes only send such commands: on a strict channel this covers all their runs, however their wanted
      policies change. */
  lemma {:induction false} RunsAreCommands(strict: bool, s: System, es: seq<Event>)
    ensures Run(strict, s, es).channel == ExecutedAll(strict, s.channel, IssuedIn(strict, s, es))
  {
    if es != [] {
      var init, e := es[..|es| - 1], es[|es| - 1];
      var t := Run(strict, s, init);
      RunsAreCommands(strict, s, init);
      if e.Step? && e.call.0 in t.want {
        StepIsItsCommand(strict, t.channel, e.call.0, t.want[e.call.0], PhaseOf(t, e.call),
                         IssuedIn(strict, s, init), s.channel);
      } else {
        assert IssuedIn(strict, s, es) == IssuedIn(strict, s, init);
      }
    }
  }

  /******* When it is left to the nodes *******/

  /** A step leaves the definition alone or commits the very next sequence with a majority. */
  ghost predicate CommitOk(ch: Channel, ch': Channel) {
    || (ch'.sequence == ch.sequence && ch'.policy == ch.policy)
    || (ch'.sequence == ch.sequence + 1 && Majority(ch', ch'.sequence, ch'.policy))
  }

  ghost predicate SafeRun(strict: bool, s: System, es: seq<Event>) {
    forall i :: 0 <= i < |es| ==> CommitOk(Run(strict, s, es[..i]).channel, Run(strict, s, es[..i + 1]).channel)
  }

  /** `may` gives the policies each node may ever want. */
  ghost predicate Within(may: map<string, set<string>>, es: seq<Event>) {
    forall e :: e in es && e.Rewant? ==> e.org in may && e.policy in may[e.org]
  }

  function Supporters(may: map<string, set<string>>, policy: string): set<string> {
    set o | o in may && policy in may[o]
  }

  /** Whoever may want a policy that a majority may want can want no other. */
  ghost predicate Settled(may: map<string, set<string>>) {
    forall policy :: |Supporters(may, policy)| >= |may| / 2 + 1 ==>
      forall o :: o in Supporters(may, policy) ==> may[o] == {policy}
  }

  /** Nothing under way, and nothing approved for the next sequence that is not wanted. */
  ghost predicate Start(s: System, may: map<string, set<string>>) {
    && WellFormed(s) && may.Keys == s.channel.orgs && AllIdle(s)
    && (forall o :: o in s.want ==> s.want[o] in may[o])
    && AheadOk(s.channel, may)
  }

  /** Approvals ahead of the committed sequence are for the next one, with what the organisation may want. */
  ghost predicate AheadOk(ch: Channel, may: map<string, set<string>>) {
    forall k :: k in ch.approvals && k.1 > ch.sequence ==>
      k.1 == ch.sequence + 1 && k.0 in may && ch.approvals[k] in may[k.0]
  }

  /** A call aims at most at the next sequence, and a commit of that follows a count that still stands. */
  ghost predicate PhaseOk(ch: Channel, may: set<string>, p: Phase) {
    match p
    case Idle => true
    case SequenceRead(c) => c <= ch.sequence
    case Targeting(c, t) => t <= ch.sequence + 1
    case Rechecking(t, _) => t <= ch.sequence + 1
    case Approving(t, _) => t <= ch.sequence + 1
    case Checking(t) => t <= ch.sequence + 1
    case Ready(t, policy) => t <= ch.sequence + 1 && (t == ch.sequence + 1 ==> policy in may && Majority(ch, t, policy))
    case Committing(t, policy) => t <= ch.sequence + 1 && (t == ch.sequence + 1 ==> policy in may && Majority(ch, t, policy))
  }

  ghost predicate OwnInv(s: System, may: map<string, set<string>>) {
    && WellFormed(s) && may.Keys == s.channel.orgs
    && (forall o :: o in s.want ==> s.want[o] in may[o])
    && AheadOk(s.channel, may)
    && forall c :: c in s.calls && c.0 in may ==> PhaseOk(s.channel, may[c.0], s.calls[c])
  }

  /** A counted majority shows that a majority may want the policy; then its members want nothing else. */
  lemma MajorityIsSettled(ch: Channel, may: map<string, set<string>>, policy: string)
    requires may.Keys == ch.orgs && Settled(may) && AheadOk(ch, may) && Majority(ch, ch.sequence + 1, policy)
    ensures forall o :: o in may && policy in may[o] ==> may[o] == {policy}
    ensures forall o :: o in Approvers(ch, ch.sequence + 1, policy) ==> may[o] == {policy}
  {
    forall o | o in Approvers(ch, ch.sequence + 1, policy)
      ensures o in Supporters(may, policy)
    {
      assert (o, ch.sequence + 1) in ch.approvals;
    }
    SubsetCardinality(Approvers(ch, ch.sequence + 1, policy), Supporters(may, policy));
    assert |may.Keys| == |may|;
    forall o | o in may && policy in may[o]
      ensures may[o] == {policy}
    {
      assert o in Supporters(may, policy);
    }
  }

  lemma ApprovalKeepsPhase(ch: Channel, may: map<string, set<string>>, org: string, t: nat, want: string, o: string, p: Phase)
    requires may.Keys == ch.orgs && Settled(may) && AheadOk(ch, may)
    requires org in may && want in may[org] && o in may && PhaseOk(ch, may[o], p)
    ensures PhaseOk(ch.(approvals := ch.approvals[(org, t) := want]), may[o], p)
  {
    if (p.Ready? || p.Committing?) && p.target == ch.sequence + 1 {
      MajorityIsSettled(ch, may, p.checked);
      if t == ch.sequence + 1 && Approves(ch, org, t, p.checked) {
        assert org in Approvers(ch, t, p.checked);
      }
      ApprovalKeepsMajority(ch, org, t, want, p.target, p.checked);
    }
  }

  /** Where a call goes is again in order. */
  lemma CommandKeepsOwnPhase(ch: Channel, may: set<string>, org: string, want: string, p: Phase)
    requires PhaseOk(ch, may, p) && want in may
    ensures PhaseOk(CallStep(false, ch, org, want, p).0, may, CallStep(false, ch, org, want, p).1)
  {
    if p.Checking? {
      ReportCounts(ch, p.target, want);
    }
  }

  lemma CommitKeepsPhase(ch: Channel, may: set<string>, policy: string, p: Phase)
    requires PhaseOk(ch, may, p)
    ensures PhaseOk(ch.(sequence := ch.sequence + 1, policy := policy), may, p)
  {
  }

  lemma CommandKeepsOthers(ch: Channel, may: map<string, set<string>>, org: string, want: string, p: Phase, o: string, q: Phase)
    requires may.Keys == ch.orgs && Settled(may) && AheadOk(ch, may)
    requires org in may && want in may[org] && o in may && PhaseOk(ch, may[o], q)
    ensures PhaseOk(CallStep(false, ch, org, want, p).0, may[o], q)
  {
    CommandEffect(false, ch, org, want, p);
    if p.Approving? {
      ApprovalKeepsPhase(ch, may, org, p.target, want, o, q);
    } else if p.Committing? {
      CommitKeepsPhase(ch, may[o], want, q);
    }
  }

  lemma CommandKeepsAhead(ch: Channel, may: map<string, set<string>>, org: string, want: string, p: Phase)
    requires AheadOk(ch, may) && org in may && want in may[org]
    ensures AheadOk(CallStep(false, ch, org, want, p).0, may)
  {
    CommandEffect(false, ch, org, want, p);
  }

  lemma StepKeepsOwnInv(s: System, may: map<string, set<string>>, call: (string, nat))
    requires OwnInv(s, may) && Settled(may) && call.0 in s.want
    ensures OwnInv(Next(false, s, Step(call)), may)
  {
    var org, want, p := call.0, s.want[call.0], PhaseOf(s, call);
    CommandEffect(false, s.channel, org, want, p);
    CommandKeepsAhead(s.channel, may, org, want, p);
    CommandKeepsOwnPhase(s.channel, may[org], org, want, p);
    forall c | c in s.calls && c.0 in may && c != call
      ensures PhaseOk(CallStep(false, s.channel, org, want, p).0, may[c.0], s.calls[c])
    {
      CommandKeepsOthers(s.channel, may, org, want, p, c.0, s.calls[c]);
    }
  }

  lemma NextKeepsOwnInv(s: System, may: map<string, set<string>>, e: Event)
    requires OwnInv(s, may) && Settled(may) && Within(may, [e])
    ensures OwnInv(Next(false, s, e), may)
  {
    assert e in [e];
    if e.Step? && e.call.0 in s.want {
      StepKeepsOwnInv(s, may, e.call);
    }
  }

  lemma {:induction false} RunKeepsOwnInv(s: System, may: map<string, set<string>>, es: seq<Event>)
    requires OwnInv(s, may) && Settled(may) && Within(may, es)
    ensures OwnInv(Run(false, s, es), may)
  {
    if es != [] {
      RunKeepsOwnInv(s, may, es[..|es| - 1]);
      assert es[|es| - 1] in es;
      NextKeepsOwnInv(Run(false, s, es[..|es| - 1]), may, es[|es| - 1]);
    }
  }

  /** The policy committed is the one that was counted, and the count still stands. */
  lemma OwnStepIsSafe(s: System, may: map<string, set<string>>, e: Event)
    requires OwnInv(s, may) && Settled(may)
    ensures CommitOk(s.channel, Next(false, s, e).channel)
  {
    if e.Step? && e.call.0 in s.want {
      var ch, org, want, p := s.channel, e.call.0, s.want[e.call.0], PhaseOf(s, e.call);
      CommandEffect(false, ch, org, want, p);
      if p.Committing? && p.target == ch.sequence + 1 {
        MajorityIsSettled(ch, may, p.checked);
        assert may[org] == {p.checked} && want == p.checked;
        assert Approvers(CallStep(false, ch, org, want, p).0, p.target, want) == Approvers(ch, p.target, want);
      }
    }
  }

  lemma SettledIsSafe(s: System, may: map<string, set<string>>, es: seq<Event>)
    requires Start(s, may) && Settled(may) && Within(may, es)
    ensures SafeRun(false, s, es)
  {
    forall i | 0 <= i < |es|
      ensures CommitOk(Run(false, s, es[..i]).channel, Run(false, s, es[..i + 1]).channel)
    {
      RunKeepsOwnInv(s, may, es[..i]);
      assert es[..i + 1][..i] == es[..i];
      OwnStepIsSafe(Run(false, s, es[..i]), may, es[i]);
    }
  }

  /** More than half of the organisations gave this approval last. */
  ghost predicate OverHalf(ch: Channel, sequence: nat, policy: string) {
    2 * |set o | o in ch.orgs && (o, sequence) in ch.approvals && ch.approvals[(o, sequence)] == policy| > |ch.orgs|
  }

  lemma MajorityIsOverHalf(ch: Channel, sequence: nat, policy: string)
    ensures Majority(ch, sequence, policy) <==> OverHalf(ch, sequence, policy)
  {
    assert Approvers(ch, sequence, policy)
        == set o | o in ch.orgs && (o, sequence) in ch.approvals && ch.approvals[(o, sequence)] == policy;
  }

  /** By number: a definition appears only as the next sequence and with the approval of more than half. */
  lemma CommitsAreOverHalf(s: System, may: map<string, set<string>>, es: seq<Event>, i: nat)
    requires Start(s, may) && Settled(may) && Within(may, es) && i < |es|
    ensures var before, after := Run(false, s, es[..i]).channel, Run(false, s, es[..i + 1]).channel;
            (after.sequence, after.policy) != (before.sequence, before.policy) ==>
              after.sequence == before.sequence + 1 && OverHalf(after, after.sequence, after.policy)
  {
    SettledIsSafe(s, may, es);
    var before, after := Run(false, s, es[..i]).channel, Run(false, s, es[..i + 1]).channel;
    assert CommitOk(before, after);
    MajorityIsOverHalf(after, after.sequence, after.policy);
  }

  /** Two calls about to commit the next sequence counted the same policy: majorities share a member. */
  lemma RacersAgree(s: System, may: map<string, set<string>>, c: (string, nat), d: (string, nat))
    requires OwnInv(s, may) && c in s.calls && d in s.calls && c.0 in may && d.0 in may
    requires s.calls[c].Committing? && s.calls[d].Committing?
    requires s.calls[c].target == s.calls[d].target == s.channel.sequence + 1
    ensures s.calls[c].checked == s.calls[d].checked
  {
    var ch, t := s.channel, s.channel.sequence + 1;
    assert PhaseOk(ch, may[c.0], s.calls[c]) && PhaseOk(ch, may[d.0], s.calls[d]);
    var x := QuorumsMeet(Approvers(ch, t, s.calls[c].checked), Approvers(ch, t, s.calls[d].checked), ch.orgs);
  }

  /******* Unsettled policies break it *******/

  /** A run by the states it passes through. */
  ghost predicate Path(strict: bool, states: seq<System>, es: seq<Event>) {
    |states| == |es| + 1 && forall i :: 0 <= i < |es| ==> states[i + 1] == Next(strict, states[i], es[i])
  }

  ghost predicate Leads(strict: bool, s: System, es: seq<Event>, t: System) {
    exists states :: Path(strict, states, es) && states[0] == s && states[|es|] == t
  }

  lemma {:induction false} PathRuns(strict: bool, states: seq<System>, es: seq<Event>)
    requires Path(strict, states, es)
    ensures Run(strict, states[0], es) == states[|es|]
  {
    if es != [] {
      PathRuns(strict, states[..|es|], es[..|es| - 1]);
    }
  }

  lemma LeadsIsRun(strict: bool, s: System, es: seq<Event>, t: System)
    requires Leads(strict, s, es, t)
    ensures Run(strict, s, es) == t
  {
    var states :| Path(strict, states, es) && states[0] == s && states[|es|] == t;
    PathRuns(strict, states, es);
  }

  lemma LeadsNowhere(strict: bool, s: System)
    ensures Leads(strict, s, [], s)
  {
    assert Path(strict, [s], []);
  }

  lemma LeadsMore(strict: bool, s: System, es: seq<Event>, t: System, e: Event, u: System)
    requires Leads(strict, s, es, t) && u == Next(strict, t, e)
    ensures Leads(strict, s, es + [e], u)
  {
    var states :| Path(strict, states, es) && states[0] == s && states[|es|] == t;
    assert Path(strict, states + [u], es + [e]);
  }

  lemma LeadsOn(strict: bool, s: System, es: seq<Event>, t: System, fs: seq<Event>, u: System)
    requires Leads(strict, s, es, t) && Leads(strict, t, fs, u)
    ensures Leads(strict, s, es + fs, u)
  {
    var states :| Path(strict, states, es) && states[0] == s && states[|es|] == t;
    var more :| Path(strict, more, fs) && more[0] == t && more[|fs|] == u;
    var all, events := states + more[1..], es + fs;
    forall i | 0 <= i < |events|
      ensures all[i + 1] == Next(strict, all[i], events[i])
    {
      if i >= |es| { assert all[i] == more[i - |es|] && all[i + 1] == more[i - |es| + 1]; }
    }
    assert Path(strict, all, events);
  }

  /** The next command of a call that is at phase p. */
  lemma NextCommand(strict: bool, s: System, c: (string, nat), p: Phase)
    requires c.0 in s.want
    ensures var (ch', p') := CallStep(strict, s.channel, c.0, s.want[c.0], p);
            Next(strict, s.(calls := s.calls[c := p]), Step(c)) == System(ch', s.want, s.calls[c := p'])
  {
    var p' := CallStep(strict, s.channel, c.0, s.want[c.0], p).1;
    assert s.calls[c := p][c := p'] == s.calls[c := p'];
  }

  /** A call whose next command only reads. */
  lemma Reads(strict: bool, s0: System, es: seq<Event>, s: System, c: (string, nat), p: Phase, q: Phase)
    requires Leads(strict, s0, es, s.(calls := s.calls[c := p])) && c.0 in s.want
    requires CallStep(strict, s.channel, c.0, s.want[c.0], p) == (s.channel, q)
    ensures Leads(strict, s0, es + [Step(c)], s.(calls := s.calls[c := q]))
  {
    NextCommand(strict, s, c, p);
    LeadsMore(strict, s0, es, s.(calls := s.calls[c := p]), Step(c), s.(calls := s.calls[c := q]));
  }

  ghost predicate Only(es: seq<Event>, e: Event) {
    forall f :: f in es ==> f == e
  }

  /** Aiming at something new. */
  ghost predicate Upgrades(s: System, c: (string, nat)) {
    && PhaseOf(s, c) == Idle && c.0 in s.want && c.0 in s.channel.orgs
    && (s.channel.sequence == 0 || (s.want[c.0] != "" && s.want[c.0] != s.channel.policy))
  }

  /** A new call reads the channel and aims at the next sequence. */
  lemma AimsAtNext(strict: bool, s: System, c: (string, nat)) returns (es: seq<Event>)
    requires Upgrades(s, c)
    ensures Only(es, Step(c))
    ensures Leads(strict, s, es, s.(calls := s.calls[c := Targeting(s.channel.sequence, s.channel.sequence + 1)]))
  {
    LeadsNowhere(strict, s);
    LeadsMore(strict, s, [], s, Step(c), s.(calls := s.calls[c := SequenceRead(s.channel.sequence)]));
    es := [] + [Step(c)];
    Reads(strict, s, es, s, c, SequenceRead(s.channel.sequence), Targeting(s.channel.sequence, s.channel.sequence + 1));
    es := es + [Step(c)];
  }

  /** If it has not approved that sequence, it does. */
  lemma ApprovesNext(strict: bool, s: System, c: (string, nat)) returns (es: seq<Event>)
    requires Upgrades(s, c) && !Approves(s.channel, c.0, s.channel.sequence + 1, s.want[c.0])
    ensures Only(es, Step(c))
    ensures var t := s.channel.sequence + 1;
            Leads(strict, s, es,
                  System(s.channel.(approvals := s.channel.approvals[(c.0, t) := s.want[c.0]]), s.want,
                         s.calls[c := Checking(t)]))
  {
    var t := s.channel.sequence + 1;
    es := AimsAtNext(strict, s, c);
    Reads(strict, s, es, s, c, Targeting(s.channel.sequence, t), Rechecking(t, false));
    es := es + [Step(c)];
    Reads(strict, s, es, s, c, Rechecking(t, false), Approving(t, false));
    es := es + [Step(c)];
    NextCommand(strict, s, c, Approving(t, false));
    LeadsMore(strict, s, es, s.(calls := s.calls[c := Approving(t, false)]), Step(c),
              System(s.channel.(approvals := s.channel.approvals[(c.0, t) := s.want[c.0]]), s.want,
                     s.calls[c := Checking(t)]));
    es := es + [Step(c)];
  }

  /** If it has, and so has a majority, it is about to commit. */
  lemma CountsNext(strict: bool, s: System, c: (string, nat)) returns (es: seq<Event>)
    requires Upgrades(s, c) && Approves(s.channel, c.0, s.channel.sequence + 1, s.want[c.0])
    requires Majority(s.channel, s.channel.sequence + 1, s.want[c.0])
    ensures Only(es, Step(c))
    ensures Leads(strict, s, es, s.(calls := s.calls[c := Committing(s.channel.sequence + 1, s.want[c.0])]))
  {
    var t, want := s.channel.sequence + 1, s.want[c.0];
    es := AimsAtNext(strict, s, c);
    Reads(strict, s, es, s, c, Targeting(s.channel.sequence, t), Checking(t));
    es := es + [Step(c)];
    ReportCounts(s.channel, t, want);
    Reads(strict, s, es, s, c, Checking(t), Ready(t, want));
    es := es + [Step(c)];
    Reads(strict, s, es, s, c, Ready(t, want), Committing(t, want));
    es := es + [Step(c)];
  }

  /** The first deployment, with nothing committed, `policy` wanted by all of `who`, and approved by those in
      `approved` and nobody else. */
  ghost predicate FirstRound(s: System, who: set<string>, approved: set<string>, policy: string) {
    && WellFormed(s) && AllIdle(s) && s.channel.sequence == 0 && approved <= who <= s.channel.orgs
    && (forall o :: o in who ==> s.want[o] == policy)
    && (forall o, t :: (o, t) in s.channel.approvals <==> o in approved && t == 1)
    && (forall o :: o in approved ==> s.channel.approvals[(o, 1)] == policy)
  }

  ghost predicate NoChanges(es: seq<Event>) {
    forall e :: e in es ==> !e.Rewant?
  }

  /** A call that approves and is then given up. */
  lemma OneMoreApproves(s: System, o: string, who: set<string>, approved: set<string>, policy: string)
    returns (es: seq<Event>, t: System)
    requires FirstRound(s, who, approved, policy) && o in who && o !in approved
    ensures NoChanges(es) && Leads(false, s, es, t)
    ensures FirstRound(t, who, approved + {o}, policy) && t.channel.orgs == s.channel.orgs
  {
    var c := (o, 0);
    assert PhaseOf(s, c) == Idle;
    es := ApprovesNext(false, s, c);
    var ch' := s.channel.(approvals := s.channel.approvals[(o, 1) := policy]);
    var mid := System(ch', s.want, s.calls[c := Checking(1)]);
    t := mid.(calls := mid.calls[c := Idle]);
    LeadsMore(false, s, es, mid, GiveUp(c), t);
    es := es + [GiveUp(c)];
  }

  lemma {:induction false} ApprovalsGather(s: System, os: seq<string>, who: set<string>, policy: string)
    returns (es: seq<Event>, t: System)
    requires FirstRound(s, who, {}, policy) && Distinct(os) && forall o :: o in os ==> o in who
    ensures NoChanges(es) && Leads(false, s, es, t)
    ensures FirstRound(t, who, Elements(os), policy) && t.channel.orgs == s.channel.orgs
  {
    if os == [] {
      es, t := [], s;
      LeadsNowhere(false, s);
      assert Elements(os) == {};
    } else {
      var init, last := os[..|os| - 1], os[|os| - 1];
      var before, mid := ApprovalsGather(s, init, who, policy);
      assert os == init + [last];
      ElementsAppend(init, last);
      var more;
      more, t := OneMoreApproves(mid, last, who, Elements(init), policy);
      LeadsOn(false, s, before, mid, more, t);
      es := before + more;
    }
  }

  /** A node counts the majority, then its wanted policy changes, and it commits what it wants now. */
  lemma ChangeAfterCount(s: System, o: string, who: set<string>, policy: string, other: string)
    returns (es: seq<Event>, t: System)
    requires FirstRound(s, who, who, policy) && o in who && other != policy
    requires |who| >= |s.channel.orgs| / 2 + 1
    ensures forall e :: e in es && e.Rewant? ==> e == Rewant(o, other)
    ensures Leads(false, s, es, t) && !CommitOk(t.channel, Next(false, t, Step((o, 0))).channel)
  {
    var c := (o, 0);
    assert PhaseOf(s, c) == Idle;
    assert Approvers(s.channel, 1, policy) == who;
    es := CountsNext(false, s, c);
    var counted := s.(calls := s.calls[c := Committing(1, policy)]);
    t := counted.(want := s.want[o := other]);
    LeadsMore(false, s, es, counted, Rewant(o, other), t);
    es := es + [Rewant(o, other)];
    forall k | k in s.channel.approvals
      ensures s.channel.approvals[k] == policy
    {
      assert (k.0, k.1) in s.channel.approvals;
    }
    NobodyApproved(s.channel, policy, other);
  }

  lemma NobodyApproved(ch: Channel, policy: string, other: string)
    requires forall k :: k in ch.approvals ==> ch.approvals[k] == policy
    requires other != policy
    ensures Approvers(ch.(sequence := 1, policy := other), 1, other) == {}
  {
  }

  /** The members of a set, in some order. */
  ghost function Listed(s: set<string>): (r: seq<string>)
    ensures Distinct(r) && Elements(r) == s
  {
    if s == {} then []
    else
      var x :| x in s;
      var rest := Listed(s - {x});
      assert x !in rest by { assert x !in Elements(rest); }
      assert Elements(rest + [x]) == s by { ElementsAppend(rest, x); }
      rest + [x]
  }

  lemma ListedMembers(s: set<string>)
    ensures forall x :: x in Listed(s) ==> x in s
  {
    assert forall x :: x in Listed(s) ==> x in Elements(Listed(s));
  }

  /** Before anything is approved, with `policy` wanted by all that may want it. */
  ghost function Opening(may: map<string, set<string>>, policy: string): System
    requires forall o :: o in may ==> may[o] != {}
  {
    System(Channel(may.Keys, 0, "", map[]),
           map o | o in may :: if policy in may[o] then policy else (var p :| p in may[o]; p),
           map[])
  }

  lemma OpeningIsStart(may: map<string, set<string>>, policy: string)
    requires may != map[] && forall o :: o in may ==> may[o] != {}
    ensures Start(Opening(may, policy), may)
    ensures FirstRound(Opening(may, policy), Supporters(may, policy), {}, policy)
  {
    var o :| o in may;
    assert o in Opening(may, policy).channel.orgs;
  }

  /** A run whose last step commits without a majority. */
  lemma UnsafeAtEnd(s: System, es: seq<Event>, t: System, e: Event)
    requires Leads(false, s, es, t) && !CommitOk(t.channel, Next(false, t, e).channel)
    ensures !SafeRun(false, s, es + [e])
  {
    var all := es + [e];
    LeadsIsRun(false, s, es, t);
    LeadsMore(false, s, es, t, e, Next(false, t, e));
    LeadsIsRun(false, s, all, Next(false, t, e));
    assert all[..|es|] == es && all[..|es| + 1] == all;
  }

  lemma UnsettledIsUnsafe(may: map<string, set<string>>, policy: string, o: string, other: string)
    returns (es: seq<Event>)
    requires may != map[] && forall o :: o in may ==> may[o] != {}
    requires |Supporters(may, policy)| >= |may| / 2 + 1
    requires o in Supporters(may, policy) && other in may[o] && other != policy
    ensures Within(may, es) && !SafeRun(false, Opening(may, policy), es)
  {
    var s, who := Opening(may, policy), Supporters(may, policy);
    assert |may.Keys| == |may|;
    OpeningIsStart(may, policy);
    ListedMembers(who);
    var gather, mid := ApprovalsGather(s, Listed(who), who, policy);
    var change, t := ChangeAfterCount(mid, o, who, policy, other);
    LeadsOn(false, s, gather, mid, change, t);
    UnsafeAtEnd(s, gather + change, t, Step((o, 0)));
    es := gather + change + [Step((o, 0))];
  }

  ghost predicate SafeFrom(s: System, may: map<string, set<string>>, es: seq<Event>) {
    Start(s, may) && Within(may, es) ==> SafeRun(false, s, es)
  }

  /** The nodes' own check keeps every run safe if and only if every policy that a majority may want is the
      only one its supporters may want. Otherwise a change between the count and the commit can commit what
      nobody approved. */
  lemma OwnCheckSuffices(may: map<string, set<string>>)
    requires may != map[] && forall o :: o in may ==> may[o] != {}
    ensures (forall s, es :: SafeFrom(s, may, es)) <==> Settled(may)
  {
    if Settled(may) {
      forall s, es
        ensures SafeFrom(s, may, es)
      {
        if Start(s, may) && Within(may, es) { SettledIsSafe(s, may, es); }
      }
    } else {
      var policy :| |Supporters(may, policy)| >= |may| / 2 + 1
                    && !(forall o :: o in Supporters(may, policy) ==> may[o] == {policy});
      var o :| o in Supporters(may, policy) && may[o] != {policy};
      var other :| other in may[o] && other != policy;
      var es := UnsettledIsUnsafe(may, policy, o, other);
      OpeningIsStart(may, policy);
      assert !SafeFrom(Opening(may, policy), may, es);
    }
  }

  /** Call b is about to commit what exactly a majority approved, a's organisation among it; a has no command
      under way and would want something new. */
  ghost predicate OnTheEdge(s: System, b: (string, nat), a: (string, nat), policy: string, other: string) {
    && WellFormed(s) && b in s.calls && a.0 in s.want && b.0 in s.want && a.0 != b.0
    && s.calls[b] == Committing(s.channel.sequence + 1, policy) && s.want[b.0] == policy
    && |Approvers(s.channel, s.channel.sequence + 1, policy)| == |s.channel.orgs| / 2 + 1
    && a.0 in Approvers(s.channel, s.channel.sequence + 1, policy) && PhaseOf(s, a) == Idle
    && other != policy && other != "" && (s.channel.sequence == 0 || other != s.channel.policy)
  }

  /** The other way to lose a majority: its member approves something else between the count and the commit. */
  lemma DefectionBreaksCommit(s: System, b: (string, nat), a: (string, nat), policy: string, other: string)
    returns (es: seq<Event>)
    requires OnTheEdge(s, b, a, policy, other)
    ensures Only(es, Step(a))
    ensures var t := Run(false, s, [Rewant(a.0, other)] + es + [Step(b)]);
            && t.channel.sequence == s.channel.sequence + 1 && t.channel.policy == policy
            && !Majority(t.channel, t.channel.sequence, policy)
  {
    var mid;
    es, mid := Defects(s, b, a, policy, other);
    var t := mid.(channel := mid.channel.(sequence := s.channel.sequence + 1, policy := policy),
                  calls := mid.calls[b := Idle]);
    LeadsMore(false, s, [Rewant(a.0, other)] + es, mid, Step(b), t);
    LeadsIsRun(false, s, [Rewant(a.0, other)] + es + [Step(b)], t);
    Defected(s.channel, a.0, policy, other);
  }

  lemma Defects(s: System, b: (string, nat), a: (string, nat), policy: string, other: string)
    returns (es: seq<Event>, t: System)
    requires OnTheEdge(s, b, a, policy, other)
    ensures Only(es, Step(a)) && Leads(false, s, [Rewant(a.0, other)] + es, t)
    ensures t.channel == s.channel.(approvals := s.channel.approvals[(a.0, s.channel.sequence + 1) := other])
    ensures b.0 in t.want && t.want[b.0] == policy && PhaseOf(t, b) == Committing(s.channel.sequence + 1, policy)
  {
    var r, changed := Rewant(a.0, other), s.(want := s.want[a.0 := other]);
    LeadsNowhere(false, s);
    LeadsMore(false, s, [], s, r, changed);
    assert [] + [r] == [r];
    es := ApprovesNext(false, changed, a);
    t := System(s.channel.(approvals := s.channel.approvals[(a.0, s.channel.sequence + 1) := other]),
                changed.want, changed.calls[a := Checking(s.channel.sequence + 1)]);
    LeadsOn(false, s, [r], changed, es, t);
  }

  lemma Defected(ch: Channel, a: string, policy: string, other: string)
    requires |Approvers(ch, ch.sequence + 1, policy)| == |ch.orgs| / 2 + 1
    requires a in Approvers(ch, ch.sequence + 1, policy) && other != policy
    ensures var ch' := ch.(approvals := ch.approvals[(a, ch.sequence + 1) := other],
                           sequence := ch.sequence + 1, policy := policy);
            !Majority(ch', ch.sequence + 1, policy)
  {
    var ch' := ch.(approvals := ch.approvals[(a, ch.sequence + 1) := other],
                   sequence := ch.sequence + 1, policy := policy);
    assert Approvers(ch', ch.sequence + 1, policy) == Approvers(ch, ch.sequence + 1, policy) - {a};
  }

  /******* A call made alone *******/

  /** A whole call with no other node in between. */
  function Call(ch: Channel, org: string, want: string): Channel {
    var t := TargetOf(ch.sequence, if ch.sequence == 0 then "" else ch.policy, want);
    var approved := if ApprovedBy(ch, org, t, want) then ch else ch.(approvals := ch.approvals[(org, t) := want]);
    if t == ch.sequence then
      if ApprovedBy(ch, org, t, want) || want == ch.policy then approved else ch
    else if Majority(approved, t, want) then approved.(sequence := t, policy := want)
    else approved
  }

  /** The commands of a call, one after the other, until it is over. */
  function Finish(strict: bool, ch: Channel, org: string, want: string, p: Phase): Channel
    decreases PhasesLeft(p)
  {
    var (ch', p') := CallStep(strict, ch, org, want, p);
    if p'.Idle? then ch' else Finish(strict, ch', org, want, p')
  }

  function PhasesLeft(p: Phase): nat {
    match p
    case Idle => 7
    case SequenceRead(_) => 6
    case Targeting(_, _) => 5
    case Rechecking(_, _) => 4
    case Approving(_, _) => 3
    case Checking(_) => 2
    case Ready(_, _) => 1
    case Committing(_, _) => 0
  }

  /** A whole call is what its commands do when nothing comes in between, on a strict channel or not. */
  lemma CallIsItsCommands(strict: bool, ch: Channel, org: string, want: string)
    requires org in ch.orgs
    ensures Call(ch, org, want) == Finish(strict, ch, org, want, Idle)
  {
    var t := TargetOf(ch.sequence, if ch.sequence == 0 then "" else ch.policy, want);
    var target := Targeting(ch.sequence, t);
    assert Finish(strict, ch, org, want, Idle) == Finish(strict, ch, org, want, SequenceRead(ch.sequence));
    assert Finish(strict, ch, org, want, SequenceRead(ch.sequence)) == Finish(strict, ch, org, want, target);
    if t != ch.sequence {
      var approved := if ApprovedBy(ch, org, t, want) then ch else ch.(approvals := ch.approvals[(org, t) := want]);
      FinishApproval(strict, ch, org, want, t);
      FinishCommit(strict, approved, org, want, t);
    } else if !ApprovedBy(ch, org, t, want) {
      assert Finish(strict, ch, org, want, target) == Finish(strict, ch, org, want, Rechecking(t, true));
      assert Finish(strict, ch, org, want, Rechecking(t, true)) == Finish(strict, ch, org, want, Approving(t, true));
    }
  }

  lemma FinishApproval(strict: bool, ch: Channel, org: string, want: string, t: nat)
    requires t == ch.sequence + 1
    ensures var approved := if ApprovedBy(ch, org, t, want) then ch else ch.(approvals := ch.approvals[(org, t) := want]);
            Finish(strict, ch, org, want, Targeting(ch.sequence, t)) == Finish(strict, approved, org, want, Checking(t))
  {
    if !ApprovedBy(ch, org, t, want) {
      assert Finish(strict, ch, org, want, Targeting(ch.sequence, t)) == Finish(strict, ch, org, want, Rechecking(t, false));
      assert Finish(strict, ch, org, want, Rechecking(t, false)) == Finish(strict, ch, org, want, Approving(t, false));
    }
  }

  lemma FinishCommit(strict: bool, ch: Channel, org: string, want: string, t: nat)
    requires t == ch.sequence + 1
    ensures Finish(strict, ch, org, want, Checking(t))
            == if Majority(ch, t, want) then ch.(sequence := t, policy := want) else ch
  {
    ReportCounts(ch, t, want);
    if Majority(ch, t, want) {
      assert Finish(strict, ch, org, want, Checking(t)) == Finish(strict, ch, org, want, Ready(t, want));
      assert Finish(strict, ch, org, want, Ready(t, want)) == Finish(strict, ch, org, want, Committing(t, want));
    }
  }

  /******* What the registry asks for *******/

  /** A node that wants what its registry says goes on to the next sequence exactly when the committed policy
      does not name each organisation it knows once and no other. */
  lemma UpgradesWhenIncomplete(committed: nat, env: Policies.Envelope, peers: seq<NodeManager.PeerInfo>,
                               cfg: Option<Policies.NodeConfig>)
    requires committed > 0 && Policies.Decoded(Some(env)).Ok?
    requires forall m :: m in Policies.KnownMSPs(peers, cfg) ==> !Policies.HasSeparator(m)
    requires forall p :: p in env.identities && p.RolePrincipal? ==> !Policies.HasSeparator(p.mspID)
    ensures var known := Policies.KnownMSPs(peers, cfg);
            TargetOf(committed, Policies.Decoded(Some(env)).value, Policies.Render(Policies.Canonical(known)))
            == if Distinct(env.identities)
                  && Elements(env.identities) == set m | m in known :: Policies.RolePrincipal(Policies.PeerRole, m)
               then committed else committed + 1
  {
    Policies.CanonicalEquality(peers, cfg, env);
    assert Policies.Render(Policies.Canonical(Policies.KnownMSPs(peers, cfg)))[0] == 'O';
  }

  /******* The node's code *******/

  class FabricChannel {
    var ch: Channel
    const strict: bool

    constructor (orgs: set<string>, strict: bool)
      ensures ch == Channel(orgs, 0, "", map[]) && this.strict == strict
    {
      ch := Channel(orgs, 0, "", map[]);
      this.strict := strict;
    }
  }

  class ChaincodeOps {
    const mspID: string
    var signaturePolicy: string

    constructor (mspID: string, signaturePolicy: string)
      ensures this.mspID == mspID && this.signaturePolicy == signaturePolicy
    {
      this.mspID, this.signaturePolicy := mspID, signaturePolicy;
    }

    /** The timer and the refresh of the dashboard put in what the registry says now; it always says something. */
    method Rebuild(peers: seq<NodeManager.PeerInfo>, cfg: Option<Policies.NodeConfig>)
      modifies this`signaturePolicy
      ensures signaturePolicy == Policies.Render(Policies.Canonical(Policies.KnownMSPs(peers, cfg)))
    {
      var newPolicy := Policies.BuildSignaturePolicy(peers, cfg);
      if newPolicy != "" {
        signaturePolicy := newPolicy;
      }
    }

    method CheckCommitReadiness(c: FabricChannel, sequence: nat) returns (r: Option<map<string, bool>>)
      requires sequence > 0
      ensures r == Seen(c.ch, sequence, signaturePolicy)
    {
      if c.ch.sequence > 0 && c.ch.sequence == sequence && |c.ch.orgs| > 0 {
        return Some(Report(c.ch, sequence, c.ch.policy));
      }
      return Readiness(c.ch, sequence, signaturePolicy);
    }

    method IsApprovedForMyOrg(c: FabricChannel, sequence: nat) returns (ok: bool)
      requires sequence > 0
      ensures ok <==> ApprovedBy(c.ch, mspID, sequence, signaturePolicy)
    {
      var approvals := CheckCommitReadiness(c, sequence);
      if approvals.None? {
        return false;
      }
      return mspID in approvals.value && approvals.value[mspID];
    }

    method ApproveChaincode(c: FabricChannel, sequence: nat) returns (ok: bool)
      requires sequence > 0
      modifies c
      ensures ApprovedBy(old(c.ch), mspID, sequence, signaturePolicy) ==> ok && c.ch == old(c.ch)
      ensures !ApprovedBy(old(c.ch), mspID, sequence, signaturePolicy) ==>
                Approve(old(c.ch), mspID, sequence, signaturePolicy) == (if ok then Some(c.ch) else None)
      ensures !ok ==> c.ch == old(c.ch)
    {
      var already := IsApprovedForMyOrg(c, sequence);
      if already {
        return true;
      }
      var r := Approve(c.ch, mspID, sequence, signaturePolicy);
      if r.None? {
        return false;
      }
      c.ch := r.value;
      return true;
    }

    method CommitChaincode(c: FabricChannel, sequence: nat) returns (ok: bool)
      modifies c
      ensures old(c.ch).sequence >= sequence ==> ok && c.ch == old(c.ch)
      ensures old(c.ch).sequence < sequence ==>
                Commit(old(c.ch), sequence, signaturePolicy, c.strict) == (if ok then Some(c.ch) else None)
      ensures !ok ==> c.ch == old(c.ch)
    {
      if c.ch.sequence >= sequence {
        return true;
      }
      var r := Commit(c.ch, sequence, signaturePolicy, c.strict);
      if r.None? {
        return false;
      }
      c.ch := r.value;
      return true;
    }

    method CountApproved(approvals: map<string, bool>) returns (count: nat)
      ensures count == TrueCount(approvals)
    {
      count := 0;
      var unseen := approvals.Keys;
      ghost var counted: set<string> := {};
      while unseen != {}
        invariant unseen <= approvals.Keys
        invariant counted == (set o | o in approvals && o !in unseen && approvals[o]) && count == |counted|
        decreases unseen
      {
        var o :| o in unseen;
        unseen := unseen - {o};
        if approvals[o] {
          count := count + 1;
          counted := counted + {o};
        }
      }
      assert counted == set o | o in approvals && approvals[o];
    }

    /** With the chaincode installed and the peer's lifecycle answering in time, a node's call does what `Call`
        says; otherwise it does that or nothing. With the wanted policy committed it reports success, so that the
        timer may stop, exactly when its organisation has approved that sequence or does so now; with another one
        committed, exactly when it commits its own. */
    method TryCommitIfReady(c: FabricChannel, installed: bool, answers: bool) returns (done: bool)
      requires mspID in c.ch.orgs
      modifies c
      ensures installed && answers ==> c.ch == Call(old(c.ch), mspID, signaturePolicy)
      ensures c.ch == old(c.ch) || c.ch == Call(old(c.ch), mspID, signaturePolicy)
      ensures done ==> c.ch == Call(old(c.ch), mspID, signaturePolicy)
                       && c.ch.sequence == TargetOf(old(c.ch).sequence, old(c.ch).policy, signaturePolicy)
      ensures c.ch.sequence != old(c.ch).sequence ==> done
      ensures old(c.ch).sequence > 0 && signaturePolicy in ["", old(c.ch).policy]
              ==> (done <==> || ApprovedBy(old(c.ch), mspID, old(c.ch).sequence, signaturePolicy)
                             || (installed && signaturePolicy == old(c.ch).policy))
      ensures old(c.ch).sequence == 0 || signaturePolicy !in ["", old(c.ch).policy]
              ==> (done <==> c.ch.sequence == old(c.ch).sequence + 1)
                  && c.ch == if answers && (installed || ApprovedBy(old(c.ch), mspID, old(c.ch).sequence + 1, signaturePolicy))
                             then Call(old(c.ch), mspID, signaturePolicy) else old(c.ch)
    {
      var committedSeq := c.ch.sequence;
      var committedPolicy := if c.ch.sequence == 0 then "" else c.ch.policy;
      var targetSeq := 1;
      if committedSeq >= 1 {
        if signaturePolicy == "" || committedPolicy == signaturePolicy {
          targetSeq := committedSeq;
        } else {
          targetSeq := committedSeq + 1;
        }
      }
      if committedSeq >= targetSeq && targetSeq == committedSeq {
        done := EnsureApproved(c, targetSeq, installed);
        return;
      }
      if !answers {
        return false;
      }
      var approved := EnsureApproved(c, targetSeq, installed);
      if !approved {
        return false;
      }
      ReportCounts(c.ch, targetSeq, signaturePolicy);
      var approvals := CheckCommitReadiness(c, targetSeq);
      if approvals.None? {
        return false;
      }
      var approvedCount := CountApproved(approvals.value);
      if approvedCount < |approvals.value| / 2 + 1 {
        return false;
      }
      done := CommitChaincode(c, targetSeq);
    }

    /** Approves the target unless that is done already or the chaincode is not installed. */
    method EnsureApproved(c: FabricChannel, target: nat, installed: bool) returns (ok: bool)
      requires target > 0
      modifies c
      ensures ok ==> if ApprovedBy(old(c.ch), mspID, target, signaturePolicy) then c.ch == old(c.ch)
                     else Approve(old(c.ch), mspID, target, signaturePolicy) == Some(c.ch)
      ensures !ok ==> c.ch == old(c.ch) && !ApprovedBy(c.ch, mspID, target, signaturePolicy)
                      && (installed ==> Approve(c.ch, mspID, target, signaturePolicy).None?)
      ensures ok ==> installed || ApprovedBy(old(c.ch), mspID, target, signaturePolicy)
    {
      var approved := IsApprovedForMyOrg(c, target);
      if approved {
        return true;
      }
      if !installed {
        return false;
      }
      ok := ApproveChaincode(c, target);
    }
  }
}
