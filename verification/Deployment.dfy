/** What approving and committing by the nodes comes to: a wanted definition is deployed, and then nothing
    more happens. */
module Deployment {
  import opened Common
  import opened Lifecycle

  /******* Nothing to do *******/

  predicate Content(ch: Channel, want: string) {
    ch.sequence > 0 && (want == "" || want == ch.policy)
  }

  /** A call that aims at nothing beyond a sequence. */
  predicate Behind(p: Phase, sequence: nat) {
    match p
    case Idle => true
    case SequenceRead(c) => c <= sequence
    case Targeting(_, t) => t <= sequence
    case Rechecking(t, _) => t <= sequence
    case Approving(t, _) => t <= sequence
    case Checking(t) => t <= sequence
    case Ready(t, _) => t <= sequence
    case Committing(t, _) => t <= sequence
  }

  ghost predicate Quiet(s: System) {
    && (forall o :: o in s.want ==> Content(s.channel, s.want[o]))
    && (forall c :: c in s.calls && c.0 in s.want ==> Behind(s.calls[c], s.channel.sequence))
  }

  ghost predicate ChangesTo(es: seq<Event>, policies: set<string>) {
    forall e :: e in es && e.Rewant? ==> e.policy in policies
  }

  lemma QuietCommand(strict: bool, ch: Channel, org: string, want: string, p: Phase)
    requires Content(ch, want) && Behind(p, ch.sequence)
    ensures var (ch', p') := CallStep(strict, ch, org, want, p);
            ch'.orgs == ch.orgs && ch'.sequence == ch.sequence && ch'.policy == ch.policy && Behind(p', ch.sequence)
  {
  }

  /** When every organisation wants the committed policy, no interleaving of calls changes it or its sequence,
      calls left over from before it was committed included. */
  lemma {:induction false} ContentStaysPut(strict: bool, s: System, es: seq<Event>)
    requires Quiet(s) && ChangesTo(es, {"", s.channel.policy})
    ensures Quiet(Run(strict, s, es))
    ensures Run(strict, s, es).channel.sequence == s.channel.sequence
    ensures Run(strict, s, es).channel.policy == s.channel.policy
  {
    if es != [] {
      ContentStaysPut(strict, s, es[..|es| - 1]);
      var t, e := Run(strict, s, es[..|es| - 1]), es[|es| - 1];
      assert e in es;
      if e.Step? && e.call.0 in t.want {
        assert Content(t.channel, t.want[e.call.0]);
        QuietCommand(strict, t.channel, e.call.0, t.want[e.call.0], PhaseOf(t, e.call));
      }
    }
  }

  /******* Progress *******/

  /** However policies change, no call is ever further ahead than the next sequence. */
  ghost predicate PhaseInRange(n: nat, p: Phase) {
    match p
    case Idle => true
    case SequenceRead(c) => c <= n
    case Targeting(c, t) => c <= n && t <= n + 1
    case Rechecking(t, _) => t <= n + 1
    case Approving(t, _) => t <= n + 1
    case Checking(t) => t <= n + 1
    case Ready(t, _) => t <= n + 1
    case Committing(t, _) => t <= n + 1
  }

  ghost predicate InRange(s: System) {
    forall c :: c in s.calls && c.0 in s.want ==> PhaseInRange(s.channel.sequence, s.calls[c])
  }

  lemma CommandInRange(strict: bool, ch: Channel, org: string, want: string, p: Phase)
    requires PhaseInRange(ch.sequence, p)
    ensures var (ch', p') := CallStep(strict, ch, org, want, p);
            PhaseInRange(ch.sequence, p') && ch.sequence <= ch'.sequence
  {
  }

  lemma NextInRange(strict: bool, s: System, e: Event)
    requires InRange(s)
    ensures InRange(Next(strict, s, e))
  {
    if e.Step? && e.call.0 in s.want {
      CommandInRange(strict, s.channel, e.call.0, s.want[e.call.0], PhaseOf(s, e.call));
    }
  }

  /** Every state reached from nothing under way is in range, whatever happened before. */
  lemma {:induction false} RunInRange(strict: bool, s: System, es: seq<Event>)
    requires InRange(s)
    ensures InRange(Run(strict, s, es))
  {
    if es != [] {
      RunInRange(strict, s, es[..|es| - 1]);
      NextInRange(strict, Run(strict, s, es[..|es| - 1]), es[|es| - 1]);
    }
  }

  /** The calls that began during a run, or whose successors did. */
  function Begun(strict: bool, s: System, es: seq<Event>): set<(string, nat)> {
    if es == [] then {}
    else
      var init, e := es[..|es| - 1], es[|es| - 1];
      Begun(strict, s, init) + if Begins(Run(strict, s, init), e) then {e.call} else {}
  }

  predicate Begins(s: System, e: Event) {
    e.Step? && e.call.0 in s.want && PhaseOf(s, e.call) == Idle
  }

  /** The organisations with a call that began in a run and ended in it by a command of its own. */
  function Completed(strict: bool, s: System, es: seq<Event>): set<string> {
    if es == [] then {}
    else
      var init, e := es[..|es| - 1], es[|es| - 1];
      Completed(strict, s, init)
      + if Ends(strict, Run(strict, s, init), e) && e.call in Begun(strict, s, init) then {e.call.0} else {}
  }

  predicate Ends(strict: bool, s: System, e: Event) {
    e.Step? && e.call.0 in s.want && PhaseOf(s, e.call) != Idle && PhaseOf(Next(strict, s, e), e.call) == Idle
  }

  /** A call before the next sequence n + 1 is committed. */
  ghost predicate GatheringPhase(ch: Channel, org: string, n: nat, want: string, p: Phase) {
    match p
    case Idle => true
    case SequenceRead(c) => c == n
    case Targeting(c, t) => c == n && t == n + 1
    case Rechecking(t, current) => t == n + 1 && !current
    case Approving(t, current) => t == n + 1 && !current
    case Checking(t) => t == n + 1 && Approves(ch, org, t, want)
    case Ready(t, _) => t == n + 1 && Approves(ch, org, t, want) && Majority(ch, t, want)
    case Committing(t, _) => t == n + 1 && Approves(ch, org, t, want) && Majority(ch, t, want)
  }

  ghost predicate AllWant(s: System, want: string) {
    WellFormed(s) && forall o :: o in s.want ==> s.want[o] == want
  }

  /** Not committed yet: whoever completed a new call has approved, and they are no majority. Older calls aim
      at the next sequence at most. */
  ghost predicate Gathering(s: System, n: nat, want: string, begun: set<(string, nat)>, done: set<string>) {
    && AllWant(s, want) && s.channel.sequence == n && (n == 0 || s.channel.policy != want)
    && InRange(s)
    && (forall c :: c in s.calls && c.0 in s.want && c in begun ==> GatheringPhase(s.channel, c.0, n, want, s.calls[c]))
    && done <= Approvers(s.channel, n + 1, want) && |done| < |s.channel.orgs| / 2 + 1
  }

  ghost predicate Deployed(s: System, n: nat, want: string) {
    AllWant(s, want) && s.channel.sequence == n + 1 && s.channel.policy == want && Quiet(s)
  }

  ghost predicate Progress(t: System, n: nat, want: string, begun: set<(string, nat)>, done: set<string>) {
    Deployed(t, n, want) || Gathering(t, n, want, begun, done)
  }

  /** Approvals of the wanted policy only help. */
  lemma ApprovalKeepsGathering(ch: Channel, org: string, n: nat, want: string, o: string, p: Phase)
    requires GatheringPhase(ch, o, n, want, p)
    ensures GatheringPhase(ch.(approvals := ch.approvals[(org, n + 1) := want]), o, n, want, p)
  {
    if p.Ready? || p.Committing? {
      ApprovalKeepsMajority(ch, org, n + 1, want, n + 1, want);
    }
  }

  /** One command while gathering: it reads, approves, or commits; a call that ends without committing has
      approved and found no majority. */
  lemma GatheringCommand(strict: bool, ch: Channel, org: string, n: nat, want: string, p: Phase)
    requires ch.sequence == n && want != "" && (n == 0 || ch.policy != want) && org in ch.orgs
    requires GatheringPhase(ch, org, n, want, p)
    ensures var (ch', p') := CallStep(strict, ch, org, want, p);
            || ch' == ch.(sequence := n + 1, policy := want)
            || (&& (ch' == ch || ch' == ch.(approvals := ch.approvals[(org, n + 1) := want]))
                && GatheringPhase(ch', org, n, want, p')
                && (p != Idle && p' == Idle ==> Approves(ch', org, n + 1, want) && !Majority(ch', n + 1, want)))
    ensures var (ch', p') := CallStep(strict, ch, org, want, p);
            ch'.sequence == n + 1 ==> p' == Idle
  {
    ReportCounts(ch, n + 1, want);
  }

  /** An older call while gathering: the same, but for what its end tells. */
  lemma LeftoverCommand(strict: bool, ch: Channel, org: string, n: nat, want: string, p: Phase)
    requires ch.sequence == n && want != "" && (n == 0 || ch.policy != want)
    requires PhaseInRange(n, p)
    ensures var (ch', p') := CallStep(strict, ch, org, want, p);
            && PhaseInRange(n, p')
            && (|| ch' == ch.(sequence := n + 1, policy := want)
                || ch' == ch
                || ch' == ch.(approvals := ch.approvals[(org, n + 1) := want]))
  {
  }

  lemma DeployedNow(s: System, n: nat, want: string, t: System, call: (string, nat), p: Phase)
    requires AllWant(t, want) && t.channel.sequence == n + 1 && t.channel.policy == want
    requires InRange(s) && s.channel.sequence == n && PhaseInRange(n, p)
    requires t.calls == s.calls[call := p] && t.want == s.want
    ensures Deployed(t, n, want)
  {
    forall c | c in t.calls && c.0 in t.want
      ensures Behind(t.calls[c], n + 1)
    {
      if c != call { assert PhaseInRange(n, s.calls[c]); }
    }
  }

  /** What does not depend on the moving call. */
  lemma OthersGather(s: System, n: nat, want: string, begun: set<(string, nat)>, done: set<string>, t: System,
                     call: (string, nat))
    requires Gathering(s, n, want, begun, done) && call.0 in s.want
    requires t.want == s.want && t.calls.Keys == s.calls.Keys + {call}
    requires forall c :: c in s.calls && c != call ==> t.calls[c] == s.calls[c]
    requires t.channel == s.channel
             || t.channel == s.channel.(approvals := s.channel.approvals[(call.0, n + 1) := want])
    ensures AllWant(t, want) && t.channel.sequence == n && (n == 0 || t.channel.policy != want)
    ensures forall c :: c in t.calls && c.0 in t.want && c in begun && c != call ==>
              GatheringPhase(t.channel, c.0, n, want, t.calls[c])
    ensures Approvers(s.channel, n + 1, want) <= Approvers(t.channel, n + 1, want)
  {
    forall c | c in t.calls && c.0 in t.want && c in begun && c != call
      ensures GatheringPhase(t.channel, c.0, n, want, t.calls[c])
    {
      ApprovalKeepsGathering(s.channel, call.0, n, want, c.0, s.calls[c]);
    }
  }

  /** A new call, or one that begins now, that does not commit. */
  lemma NewCallGathers(strict: bool, s: System, n: nat, want: string, begun: set<(string, nat)>, done: set<string>,
                       call: (string, nat))
    requires Gathering(s, n, want, begun, done) && want != "" && call.0 in s.want
    requires call in begun || PhaseOf(s, call) == Idle
    requires Next(strict, s, Step(call)).channel.sequence == n
    ensures Gathering(Next(strict, s, Step(call)), n, want, begun + {call},
                      done + if Ends(strict, s, Step(call)) then {call.0} else {})
  {
    var t := Next(strict, s, Step(call));
    GatheringCommand(strict, s.channel, call.0, n, want, PhaseOf(s, call));
    NextInRange(strict, s, Step(call));
    OthersGather(s, n, want, begun, done, t, call);
    if Ends(strict, s, Step(call)) {
      SubsetCardinality(done + {call.0}, Approvers(t.channel, n + 1, want));
    }
  }

  lemma NewCallStep(strict: bool, s: System, n: nat, want: string, begun: set<(string, nat)>, done: set<string>,
                    call: (string, nat))
    requires Gathering(s, n, want, begun, done) && want != "" && call.0 in s.want
    requires call in begun || PhaseOf(s, call) == Idle
    ensures Progress(Next(strict, s, Step(call)), n, want, begun + {call},
                     done + if Ends(strict, s, Step(call)) then {call.0} else {})
  {
    var t := Next(strict, s, Step(call));
    GatheringCommand(strict, s.channel, call.0, n, want, PhaseOf(s, call));
    if t.channel.sequence == n + 1 {
      DeployedNow(s, n, want, t, call, Idle);
    } else {
      NewCallGathers(strict, s, n, want, begun, done, call);
    }
  }

  lemma OldCallStep(strict: bool, s: System, n: nat, want: string, begun: set<(string, nat)>, done: set<string>,
                    call: (string, nat))
    requires Gathering(s, n, want, begun, done) && want != "" && call.0 in s.want
    requires call !in begun && PhaseOf(s, call) != Idle
    ensures var t := Next(strict, s, Step(call));
            Deployed(t, n, want) || Gathering(t, n, want, begun, done)
  {
    var p, t := PhaseOf(s, call), Next(strict, s, Step(call));
    LeftoverCommand(strict, s.channel, call.0, n, want, p);
    NextInRange(strict, s, Step(call));
    if t.channel.sequence == n + 1 {
      DeployedNow(s, n, want, t, call, PhaseOf(t, call));
    } else {
      OthersGather(s, n, want, begun, done, t, call);
    }
  }

  lemma {:induction false} OrgsStay(strict: bool, s: System, es: seq<Event>)
    ensures Run(strict, s, es).channel.orgs == s.channel.orgs
  {
    if es != [] {
      var t, e := Run(strict, s, es[..|es| - 1]), es[|es| - 1];
      OrgsStay(strict, s, es[..|es| - 1]);
      if e.Step? && e.call.0 in t.want {
        CommandEffect(strict, t.channel, e.call.0, t.want[e.call.0], PhaseOf(t, e.call));
      }
    }
  }

  lemma DeployedStays(strict: bool, t: System, n: nat, want: string, e: Event)
    requires Deployed(t, n, want) && (e.Rewant? ==> e.policy == want)
    ensures Deployed(Next(strict, t, e), n, want)
  {
    if e.Step? && e.call.0 in t.want {
      QuietCommand(strict, t.channel, e.call.0, want, PhaseOf(t, e.call));
    }
  }

  /** A call given up, or a policy rebuilt unchanged. */
  lemma GatheringStays(strict: bool, t: System, n: nat, want: string, begun: set<(string, nat)>, done: set<string>, e: Event)
    requires Gathering(t, n, want, begun, done) && (e.Rewant? ==> e.policy == want)
    requires e.Step? ==> e.call.0 !in t.want
    ensures Gathering(Next(strict, t, e), n, want, begun, done)
  {
    NextInRange(strict, t, e);
  }

  lemma GatheringNext(strict: bool, t: System, n: nat, want: string, begun: set<(string, nat)>, done: set<string>, e: Event)
    requires Gathering(t, n, want, begun, done) && want != "" && (e.Rewant? ==> e.policy == want)
    ensures Progress(Next(strict, t, e), n, want,
                     begun + if Begins(t, e) then {e.call} else {},
                     done + if Ends(strict, t, e) && e.call in begun then {e.call.0} else {})
  {
    if !e.Step? || e.call.0 !in t.want {
      GatheringStays(strict, t, n, want, begun, done, e);
      assert begun + {} == begun && done + {} == done;
    } else if e.call in begun || PhaseOf(t, e.call) == Idle {
      NewCallStep(strict, t, n, want, begun, done, e.call);
      assert begun + (if Begins(t, e) then {e.call} else {}) == begun + {e.call};
      assert e.call !in begun ==> !Ends(strict, t, e);
    } else {
      OldCallStep(strict, t, n, want, begun, done, e.call);
      assert begun + {} == begun && done + {} == done;
    }
  }

  lemma {:induction false} ProgressOf(strict: bool, s: System, es: seq<Event>, want: string)
    requires AllWant(s, want) && InRange(s) && ChangesTo(es, {want})
    requires want != "" && (s.channel.sequence == 0 || s.channel.policy != want)
    ensures var n := s.channel.sequence;
            Progress(Run(strict, s, es), n, want, Begun(strict, s, es), Completed(strict, s, es))
  {
    var n := s.channel.sequence;
    if es != [] {
      var init, e := es[..|es| - 1], es[|es| - 1];
      assert e in es;
      ProgressOf(strict, s, init, want);
      if Deployed(Run(strict, s, init), n, want) {
        DeployedStays(strict, Run(strict, s, init), n, want, e);
      } else {
        GatheringNext(strict, Run(strict, s, init), n, want, Begun(strict, s, init), Completed(strict, s, init), e);
      }
    }
  }

  /** Progress, under every interleaving and after any earlier run: once all want the same new policy, whatever
      calls are still under way, it is committed, as exactly one new sequence, by the time that any majority of
      organisations has completed a call begun since; given-up calls and the channel's own check
      notwithstanding. */
  lemma {:induction false} MajorityDeploys(strict: bool, s0: System, before: seq<Event>, es: seq<Event>, want: string)
    requires InRange(s0)
    requires var s := Run(strict, s0, before);
             && AllWant(s, want) && ChangesTo(es, {want})
             && want != "" && (s.channel.sequence == 0 || s.channel.policy != want)
             && |Completed(strict, s, es)| >= |s.channel.orgs| / 2 + 1
    ensures var s := Run(strict, s0, before);
            && Run(strict, s, es).channel.sequence == s.channel.sequence + 1
            && Run(strict, s, es).channel.policy == want
  {
    var s := Run(strict, s0, before);
    RunInRange(strict, s0, before);
    ProgressOf(strict, s, es, want);
    OrgsStay(strict, s, es);
  }
}
