/** The Global Leader's side of a safe handoff (internal/cdraft/telemetry.go:312-407) and the
    client writes and commits that interleave with it. */
module Handoff {
  import opened Types
  import opened NodeLog
  import opened Elections
  import ElectionRuns

  /** Leadership and migration fields of a node; `leader` is the Global Leader it follows. */
  datatype Control = Control(
    self: string,
    elector: Elector,
    leader: GlobalIdentity,
    migrating: bool,
    draining: bool,
    barrier: nat)
  {
    predicate HoldsLeadership() {
      elector.globalRole == Leader && leader.domainLeader.node == self
    }

    predicate Frozen() {
      migrating || draining
    }
  }

  datatype Server = Server(node: NodeState, policy: CompactionPolicy, ctl: Control)

  datatype Reply = NotLeader | Answer(reply: WriteReply)

  /** Write on this node; `able` says that the node has not failed and its lease is fresh. */
  function WriteReplyOf(v: Server, w: WriteRequest, able: bool): Reply {
    if v.ctl.elector.stage != Serving || !able || !v.ctl.HoldsLeadership() then NotLeader
    else Answer(WriteOutcome(v.node, v.ctl.leader.term, w, v.ctl.draining))
  }

  function ServeWrite(v: Server, w: WriteRequest, able: bool): Server {
    if WriteReplyOf(v, w, able).NotLeader? then v
    else v.(node := Write(v.node, v.ctl.leader.term, w, v.ctl.draining))
  }

  /** A write is refused as not led here exactly when the node is not serving, has failed or lost its
      lease, or is not the Global Leader it follows. */
  lemma NotLeaderExactly(v: Server, w: WriteRequest, able: bool)
    ensures WriteReplyOf(v, w, able) == NotLeader <==>
            || v.ctl.elector.stage != Serving || !able
            || v.ctl.elector.globalRole != Leader || v.ctl.leader.domainLeader.node != v.ctl.self
    ensures WriteReplyOf(v, w, able) == NotLeader ==> ServeWrite(v, w, able) == v
    ensures var reply := WriteReplyOf(v, w, able);
            reply.Answer? && reply.reply.Ordered? ==>
              && reply.reply.entry.term == v.ctl.leader.term && !v.ctl.draining
              && ServeWrite(v, w, able).node.hist == v.node.hist + [reply.reply.entry]
  {
  }

  /** Whether initiateMigration starts, given what it knows about the target's leader. */
  predicate Starts(c: Control, target: Option<DomainIdentity>) {
    !c.migrating && target.Some? && target.value.Valid() && target.value.node != c.self
  }

  /** A handoff starts exactly when none is under way and the target domain's leader is known, valid
      and another node; it then freezes the log at its last index. */
  lemma StartsExactly(v: Server, target: Option<DomainIdentity>)
    ensures Starts(v.ctl, target) <==>
            && !v.ctl.migrating && target != None
            && target.value.domain != "" && target.value.node != "" && target.value.term > 0
            && target.value.node != v.ctl.self
    ensures var u := Begin(v, target);
            if Starts(v.ctl, target)
            then u == v.(ctl := u.ctl) && u.ctl.migrating && u.ctl.draining && u.ctl.barrier == |v.node.hist| &&
                 u.ctl.leader == v.ctl.leader && u.ctl.elector == v.ctl.elector && u.ctl.self == v.ctl.self
            else u == v
  {
  }

  function Begin(v: Server, target: Option<DomainIdentity>): Server {
    if Starts(v.ctl, target)
    then v.(ctl := v.ctl.(migrating := true, draining := true, barrier := |v.node.hist|))
    else v
  }

  function Finish(c: Control): Control {
    c.(migrating := false, draining := false, barrier := 0)
  }

  /** revokeGlobalLeadershipForHandoffLocked. */
  function Revoke(c: Control): Control {
    if c.HoldsLeadership() then c.(leader := NO_GLOBAL_LEADER, elector := RevokeGlobal(c.elector)) else c
  }

  /** observeHigherGlobalTerm. */
  function Observe(c: Control, term: nat): Control {
    if term <= c.elector.globalTerm then c
    else c.(leader := NO_GLOBAL_LEADER, elector := ObserveGlobalTerm(c.elector, term))
  }

  /** adoptHandedOffLeaderLocked. */
  function Adopt(c: Control, target: DomainIdentity, newTerm: nat): Control {
    if newTerm >= c.elector.globalTerm
    then c.(leader := GlobalIdentity(target, newTerm), elector := AdoptHandedOff(c.elector, target, newTerm))
    else c
  }

  // ------------------------------------------------------------ election traffic

  /** What the elections of both tiers may do to the node meanwhile. */
  datatype Election =
    | SeesTerm(term: nat)
    | Votes(gr: GlobalVoteRequest, log: LogSummary)
    | Hears(id: GlobalIdentity)
    | Campaigns(candidate: DomainIdentity)
    | Wins
    | SeesDomainTerm(term: nat)
    | VotesDomain(dr: DomainVoteRequest, log: LogSummary)
    | HearsDomain(dl: DomainIdentity)
    | CampaignsDomain
    | WinsDomain(domain: string)

  function Elect(c: Control, e: Election): Control {
    match e
    case SeesTerm(t) => Observe(c, t)
    case Votes(r, log) =>
      c.(leader := if r.term > c.elector.globalTerm then NO_GLOBAL_LEADER else c.leader,
      elector := GlobalVoted(c.elector, log, r))
    case Hears(id) =>
      if id.term < c.elector.globalTerm then c
      else c.(leader := id, elector := AcceptGlobalLeader(c.elector, c.self, id))
    case Campaigns(d) => c.(leader := NO_GLOBAL_LEADER, elector := StartGlobalCampaign(c.elector, d))
    case Wins =>
      var id := GlobalIdentity(c.elector.globalVote, c.elector.globalTerm);
      c.(leader := id, elector := BecomeGlobalLeader(c.elector, id))
    case SeesDomainTerm(t) => ObserveDomain(c, t)
    case VotesDomain(r, log) => c.(elector := DomainVoted(c.elector, log, r))
    case HearsDomain(id) => c.(elector := HeardDomain(c.elector, c.self, id))
    case CampaignsDomain => c.(elector := StartDomainCampaign(c.elector, c.self))
    case WinsDomain(domain) =>
      var id := DomainIdentity(domain, c.self, c.elector.domainTerm);
      c.(elector := BecomeDomainLeader(c.elector, id).(stage := DomainReady))
  }

  /** observeHigherDomainTerm: a deposed Domain Leader gives up the global role with it. */
  function ObserveDomain(c: Control, term: nat): Control {
    if term <= c.elector.domainTerm then c
    else
      var led := c.elector.domainRole == Leader && c.elector.domainLeader.node == c.self;
      var seen := ObserveDomainTerm(c.elector, term);
      var revoked := if c.HoldsLeadership() then RevokeGlobal(seen) else seen;
      c.(leader := if c.HoldsLeadership() then NO_GLOBAL_LEADER else c.leader,
      elector := if led then revoked.(stage := DomainElecting) else revoked)
  }

  /** Heartbeat of the node's own domain. */
  function HeardDomain(e: Elector, self: string, id: DomainIdentity): Elector {
    if id.term < e.domainTerm then e
    else
      var seen := AcceptDomainLeader(e, self, id);
      seen.(stage := if seen.stage != Serving then GlobalElecting else Serving)
  }

  /** A node in the global role of leader takes itself for the Global Leader. */
  predicate SelfLed(c: Control) {
    c.elector.globalRole == Leader ==> c.leader.domainLeader.node == c.self
  }

  /** What election traffic does to a leader: a later global term, or a later domain term seen as the
      Domain Leader's own deposition, ends its leadership; a vote granted to a later term ends it
      too; a heartbeat of no earlier term makes it follow the sender; nothing lowers a term. */
  lemma TrafficDeposes(c: Control, e: Election)
    requires c.HoldsLeadership()
    ensures e.SeesTerm? && e.term > c.elector.globalTerm ==>
              !Elect(c, e).HoldsLeadership() && !Elect(c, e).leader.Valid()
    ensures e.SeesDomainTerm? && e.term > c.elector.domainTerm ==>
              && !Elect(c, e).HoldsLeadership() && !Elect(c, e).leader.Valid()
              && Elect(c, e).elector.domainRole == Follower && Elect(c, e).elector.stage != Serving
    ensures e.Votes? && e.gr.term > c.elector.globalTerm ==>
              !Elect(c, e).HoldsLeadership() && !Elect(c, e).leader.Valid()
    ensures e.Hears? && e.id.term >= c.elector.globalTerm && e.id.domainLeader.node != c.self ==>
              !Elect(c, e).HoldsLeadership() && Elect(c, e).leader == e.id
    ensures Elect(c, e).elector.globalTerm >= c.elector.globalTerm
    ensures Elect(c, e).elector.domainTerm >= c.elector.domainTerm
    ensures !Revoke(c).HoldsLeadership() && !Revoke(c).leader.Valid() && Revoke(c).elector.stage != Serving
  {
  }

  /** A heartbeat of its own domain makes a node follow the sender without touching the global tier;
      a node that serves goes on serving. */
  lemma DomainHeartbeat(c: Control, dl: DomainIdentity)
    ensures var t := Elect(c, HearsDomain(dl));
            && t.leader == c.leader && t.elector.globalTerm == c.elector.globalTerm
            && t.elector.globalVote == c.elector.globalVote && t.elector.globalRole == c.elector.globalRole
            && (dl.term < c.elector.domainTerm ==> t == c)
            && (dl.term >= c.elector.domainTerm ==>
                  && t.elector.domainLeader == dl && t.elector.domainTerm == dl.term
                  && t.elector.stage == if c.elector.stage == Serving then Serving else GlobalElecting)
  {
  }

  // ------------------------------------------------------------ interleavings

  /** What may happen on the node while one migration is under way and not yet finished. */
  datatype Step =
    | StepWrite(w: WriteRequest, able: bool)
    | StepCommit(index: nat, term: nat, request: string)
    | StepReplicateOwn(m: Stamped)
    | StepReplicateForeign(m: Stamped)
    | StepInstall(p: Snapshot)
    | StepBegin(target: Option<DomainIdentity>)
    | StepElect(e: Election)
    | StepRevoke

  /** The leader's own fan-out only redelivers entries it already holds; another leader, of a later
      term, may send anything, snapshots of its applied state included. A node wins only a
      campaign of its own. */
  predicate Enabled(v: Server, s: Step) {
    match s
    case StepReplicateOwn(m) =>
      var e := m.entry;
      e.index <= v.node.floor || (e.index <= |v.node.hist| && SameIdentity(v.node.hist[e.index - 1], e))
    case StepInstall(p) => SnapshotInv(p)
    case StepElect(e) => e.Wins? ==> v.ctl.elector.globalVote.node == v.ctl.self
    case _ => true
  }

  function Do(v: Server, s: Step): Server {
    match s
    case StepWrite(w, able) => ServeWrite(v, w, able)
    case StepCommit(i, t, r) => v.(node := CommitStep(v.node, v.policy, v.ctl.Frozen(), i, t, r))
    case StepReplicateOwn(m) => v.(node := Append(v.node, m.entry, m.prevIndex, m.prevTerm))
    case StepReplicateForeign(m) => v.(node := Append(v.node, m.entry, m.prevIndex, m.prevTerm))
    case StepInstall(p) => v.(node := Install(v.node, p))
    case StepBegin(target) => Begin(v, target)
    case StepElect(e) => v.(ctl := Elect(v.ctl, e))
    case StepRevoke => v.(ctl := Revoke(v.ctl))
  }

  /** v leads to w by the given steps. */
  predicate Run(v: Server, steps: seq<Step>, w: Server)
    decreases |steps|
  {
    if steps == [] then w == v
    else Enabled(v, steps[0]) && Run(Do(v, steps[0]), steps[1..], w)
  }

  /** No step of the run lets another leader write into the log. */
  predicate NoForeign(steps: seq<Step>) {
    forall i :: 0 <= i < |steps| ==> !steps[i].StepReplicateForeign?
  }

  predicate TakesOver(v: Server, s: Step) {
    s.StepInstall? && |s.p.prefix| > v.node.commit
  }

  /** Some step of the run installs a snapshot beyond what the node has applied by then. */
  predicate Overrun(v: Server, steps: seq<Step>)
    decreases |steps|
  {
    steps != [] && (TakesOver(v, steps[0]) || Overrun(Do(v, steps[0]), steps[1..]))
  }

  /** What the same steps do to the leadership fields without any migration. */
  function Meanwhile(c: Control, steps: seq<Step>): Control
    decreases |steps|
  {
    if steps == [] then c
    else
      var d := match steps[0]
               case StepElect(e) => Elect(c, e)
               case StepRevoke => Revoke(c)
               case _ => c;
      Meanwhile(d, steps[1..])
  }

  // ------------------------------------------------------------ the freeze

  lemma StepFrozen(v: Server, s: Step)
    requires Inv(v.node) && Enabled(v, s)
    requires v.ctl.migrating && v.ctl.draining
    ensures var w := Do(v, s);
            && Inv(w.node) && w.policy == v.policy && w.node.commit >= v.node.commit
            && (if TakesOver(v, s) then w.node.floor > v.node.floor else w.node.floor == v.node.floor)
            && (!TakesOver(v, s) ==> w.node.hist[..v.node.commit] == v.node.hist[..v.node.commit])
            && (s.StepReplicateForeign? || TakesOver(v, s) || w.node.hist == v.node.hist)
            && w.ctl.migrating && w.ctl.draining && w.ctl.barrier == v.ctl.barrier && w.ctl.self == v.ctl.self
            && (SelfLed(v.ctl) ==> SelfLed(w.ctl))
  {
    match s {
      case StepCommit(i, t, r) => CommitIsAtomic(v.node, i, t, r);
      case StepReplicateForeign(m) => AppendKeeps(v.node, m.entry, m.prevIndex, m.prevTerm);
      case StepInstall(p) => InstallKeeps(v.node, p);
      case _ =>
    }
  }

  lemma StepMeanwhile(v: Server, s: Step)
    requires Enabled(v, s) && v.ctl.migrating
    ensures Finish(Do(v, s).ctl) == Meanwhile(Finish(v.ctl), [s])
  {
    assert [s][1..] == [];
  }

  /** Handoff freeze: between the barrier and the end of the migration, under any interleaving of
      writes, commits, redeliveries, further migration requests, election traffic of both tiers,
      the revocation, and entries and snapshots from another leader, the flags and the barrier
      stay. The floor stays if and only if no snapshot beyond the applied index arrives; then no
      committed entry changes either, and unless another leader replicates here, nothing grows the
      log past the barrier or replaces an entry. */
  lemma FreezeHolds(v: Server, target: Option<DomainIdentity>, steps: seq<Step>, w: Server)
    requires Inv(v.node) && Starts(v.ctl, target)
    requires Run(Begin(v, target), steps, w)
    ensures Inv(w.node) && w.ctl.barrier == |v.node.hist| && w.ctl.migrating && w.ctl.draining
    ensures forall other :: !Starts(w.ctl, other)
    ensures w.node.floor == v.node.floor <==> !Overrun(Begin(v, target), steps)
    ensures w.node.floor == v.node.floor ==>
              && v.node.commit <= w.node.commit && w.node.hist[..v.node.commit] == v.node.hist[..v.node.commit]
              && (NoForeign(steps) ==> w.node.hist == v.node.hist)
  {
    RunFrozen(Begin(v, target), steps, w);
  }

  lemma {:induction false} RunFrozen(v: Server, steps: seq<Step>, w: Server)
    requires Inv(v.node) && v.ctl.migrating && v.ctl.draining
    requires Run(v, steps, w)
    ensures Inv(w.node) && w.node.commit >= v.node.commit && w.node.floor >= v.node.floor
    ensures w.node.floor == v.node.floor <==> !Overrun(v, steps)
    ensures !Overrun(v, steps) ==> w.node.hist[..v.node.commit] == v.node.hist[..v.node.commit]
    ensures !Overrun(v, steps) && NoForeign(steps) ==> w.node.hist == v.node.hist
    ensures w.ctl.migrating && w.ctl.draining && w.ctl.barrier == v.ctl.barrier && w.ctl.self == v.ctl.self
    ensures SelfLed(v.ctl) ==> SelfLed(w.ctl)
    decreases |steps|
  {
    if steps != [] {
      var u := Do(v, steps[0]);
      StepFrozen(v, steps[0]);
      RunFrozen(u, steps[1..], w);
      assert NoForeign(steps) ==> NoForeign(steps[1..]);
      PrefixChain(v.node, u.node, w.node);
    }
  }

  lemma PrefixChain(s: NodeState, t: NodeState, u: NodeState)
    requires s.commit <= |s.hist| && s.commit <= t.commit <= |t.hist| && t.commit <= |u.hist|
    ensures t.hist[..s.commit] == s.hist[..s.commit] && u.hist[..t.commit] == t.hist[..t.commit] ==>
              u.hist[..s.commit] == s.hist[..s.commit]
  {
    assert u.hist[..s.commit] == u.hist[..t.commit][..s.commit];
    assert t.hist[..s.commit] == t.hist[..t.commit][..s.commit];
  }

  lemma {:induction false} RunMeanwhile(v: Server, steps: seq<Step>, w: Server)
    requires Inv(v.node) && v.ctl.migrating && v.ctl.draining && Run(v, steps, w)
    ensures Finish(w.ctl) == Meanwhile(Finish(v.ctl), steps)
    decreases |steps|
  {
    if steps != [] {
      StepFrozen(v, steps[0]);
      StepMeanwhile(v, steps[0]);
      RunMeanwhile(Do(v, steps[0]), steps[1..], w);
    }
  }

  /** A migration that ends without adopting a leader leaves terms, votes, roles, leader, stage and
      flags exactly as the same steps would have without a migration. So an abort before the
      revocation in which no election message arrived changes nothing, and the incumbent keeps
      serving. */
  lemma AbortUntouched(v: Server, target: Option<DomainIdentity>, steps: seq<Step>, w: Server)
    requires Inv(v.node) && Starts(v.ctl, target)
    requires !v.ctl.draining && v.ctl.barrier == 0
    requires Run(Begin(v, target), steps, w)
    ensures Finish(w.ctl) == Meanwhile(v.ctl, steps)
    ensures (forall i :: 0 <= i < |steps| ==> !steps[i].StepElect? && !steps[i].StepRevoke?) ==> Finish(w.ctl) == v.ctl
  {
    RunMeanwhile(Begin(v, target), steps, w);
    QuietMeanwhile(v.ctl, steps);
  }

  lemma {:induction false} QuietMeanwhile(c: Control, steps: seq<Step>)
    ensures (forall i :: 0 <= i < |steps| ==> !steps[i].StepElect? && !steps[i].StepRevoke?) ==>
              Meanwhile(c, steps) == c
    decreases |steps|
  {
    if steps != [] {
      QuietMeanwhile(c, steps[1..]);
    }
  }

  // ------------------------------------------------------------ success

  predicate NoWins(steps: seq<Step>) {
    forall i :: 0 <= i < |steps| ==> steps[i] != StepElect(Wins)
  }

  lemma StepStaysDown(v: Server, s: Step)
    requires s != StepElect(Wins) && v.ctl.elector.globalRole != Leader
    ensures Do(v, s).ctl.elector.globalRole != Leader
  {
  }

  /** Once a node is not in the global role of leader, only a win makes it lead again. */
  lemma {:induction false} StaysDown(v: Server, steps: seq<Step>, w: Server)
    requires Run(v, steps, w) && NoWins(steps) && v.ctl.elector.globalRole != Leader
    ensures w.ctl.elector.globalRole != Leader
    decreases |steps|
  {
    if steps != [] {
      StepStaysDown(v, steps[0]);
      StaysDown(Do(v, steps[0]), steps[1..], w);
    }
  }

  lemma {:induction false} RunSplit(v: Server, xs: seq<Step>, ys: seq<Step>, w: Server) returns (u: Server)
    requires Run(v, xs + ys, w)
    ensures Run(v, xs, u) && Run(u, ys, w)
    decreases |xs|
  {
    if xs == [] {
      assert xs + ys == ys;
      u := v;
    } else {
      assert (xs + ys)[0] == xs[0] && (xs + ys)[1..] == xs[1..] + ys;
      u := RunSplit(Do(v, xs[0]), xs[1..], ys, w);
    }
  }

  /** Unless it has meanwhile seen a later term, the node follows the target in the new term. */
  predicate Follows(before: Control, target: DomainIdentity, newTerm: nat, after: Control) {
    if before.elector.globalTerm <= newTerm then
      && after.elector.globalTerm == newTerm && after.leader.term == newTerm && after.leader.domainLeader == target
      && after.elector.globalLeader == after.leader
    else after.leader == before.leader && after.elector == before.elector
  }

  /** The outgoing leader after it adopted the answer, whatever happened before the revocation and
      between it and the answer: it ends at least in the new term, not frozen; it leads only if it
      has meanwhile won a term beyond the new one. */
  lemma AdoptedAfter(v: Server, target: DomainIdentity, before: seq<Step>, after: seq<Step>, w: Server, newTerm: nat)
    requires Inv(v.node) && Starts(v.ctl, Some(target))
    requires Run(Begin(v, Some(target)), before + ([StepRevoke] + after), w)
    ensures var c := Finish(Adopt(w.ctl, target, newTerm));
            && c.elector.globalTerm >= newTerm && !c.Frozen()
            && (c.HoldsLeadership() ==> c.elector.globalTerm > newTerm)
            && (SelfLed(v.ctl) && NoWins(after) ==> !c.HoldsLeadership())
            && Follows(w.ctl, target, newTerm, c)
  {
    var b := Begin(v, Some(target));
    RunFrozen(b, before + ([StepRevoke] + after), w);
    var u := RunSplit(b, before, [StepRevoke] + after, w);
    RunFrozen(b, before, u);
    assert ([StepRevoke] + after)[1..] == after;
    if SelfLed(v.ctl) && NoWins(after) {
      StaysDown(Do(u, StepRevoke), after, w);
    }
  }

  /** A successful handoff: the target, whose own run from its checks to its answer is any run of the
      elections in which it campaigned and won without crashing, has won a term strictly above
      the outgoing leader's and answers with a term no lower; the outgoing leader ends at least
      there, and is not leading unless it won a still later term itself. */
  lemma SuccessRaisesTerm(v: Server, target: DomainIdentity, before: seq<Step>, after: seq<Step>, w: Server,
                          c: ElectionRuns.System, followed: GlobalIdentity, pre: seq<ElectionRuns.Step>,
                          campaign: ElectionRuns.Step, during: seq<ElectionRuns.Step>, win: ElectionRuns.Step,
                          post: seq<ElectionRuns.Step>, d: ElectionRuns.System)
    returns (won: ElectionRuns.GlobalWin)
    requires Inv(v.node) && Starts(v.ctl, Some(target))
    requires Run(Begin(v, Some(target)), before + ([StepRevoke] + after), w)
    requires ElectionRuns.Reachable(c)
    requires ElectionRuns.TransferRun(c, target.node, v.ctl.elector.globalTerm, followed,
                                      pre, campaign, during, win, post, d)
    ensures target.node in d.mem && won in d.globalWins && won.candidate.node == target.node
    ensures v.ctl.elector.globalTerm < won.term <= d.mem[target.node].globalTerm
    ensures var newTerm := d.mem[target.node].globalTerm;
            var end := Finish(Adopt(w.ctl, target, newTerm));
            && end.elector.globalTerm >= newTerm && !end.Frozen()
            && (end.HoldsLeadership() ==> end.elector.globalTerm > newTerm)
            && (SelfLed(v.ctl) && NoWins(after) ==> !end.HoldsLeadership())
            && Follows(w.ctl, target, newTerm, end)
  {
    won := ElectionRuns.TransferRaisesTerm(c, target.node, v.ctl.elector.globalTerm, followed,
                                           pre, campaign, during, win, post, d);
    AdoptedAfter(v, target, before, after, w, d.mem[target.node].globalTerm);
  }
}
