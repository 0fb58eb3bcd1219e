/** Both election tiers over all interleavings: campaigns, votes, observed terms, accepted and
    handed-off leaders, failing saves and crashes that fall back to what was saved. */
module ElectionRuns {
  import opened Types
  import opened Quorums
  import opened Elections

  datatype DomainBallot = DomainBallot(voter: string, term: nat, candidate: string)
  datatype GlobalBallot = GlobalBallot(voter: string, term: nat, candidate: DomainIdentity)
  datatype DomainWin = DomainWin(domain: string, term: nat, node: string, voters: set<string>)

  /** `backers` names, for each domain that backed the winner, the node that cast its vote. */
  datatype GlobalWin = GlobalWin(term: nat, candidate: DomainIdentity, backers: map<string, string>)

  /** `domainOf` is the configured topology. Requests stay in flight forever; ballots are the
      votes that left their voter, a candidate's own included. */
  datatype System = System(
    domainOf: map<string, string>,
    mem: map<string, Elector>,
    disk: map<string, Elector>,
    domainRequests: set<DomainVoteRequest>,
    globalRequests: set<GlobalVoteRequest>,
    domainBallots: set<DomainBallot>,
    globalBallots: set<GlobalBallot>,
    domainWins: set<DomainWin>,
    globalWins: set<GlobalWin>)

  function Members(c: System, domain: string): set<string> {
    set n | n in c.domainOf && c.domainOf[n] == domain
  }

  function Domains(c: System): set<string> {
    set n | n in c.domainOf :: c.domainOf[n]
  }

  /** `saved` says whether the save that ends the step succeeded; a vote or a campaign whose
      save failed is never announced. */
  datatype Step =
    | CampaignDomain(n: string, log: LogSummary, saved: bool)
    | VoteDomain(n: string, dr: DomainVoteRequest, log: LogSummary, saved: bool)
    | SeeDomainTerm(n: string, term: nat, saved: bool)
    | HearDomainLeader(n: string, leader: DomainIdentity, saved: bool)
    | WinDomain(n: string, voters: set<string>, saved: bool)
    | CampaignGlobal(n: string, log: LogSummary, saved: bool)
    | VoteGlobal(n: string, gr: GlobalVoteRequest, log: LogSummary, saved: bool)
    | SeeGlobalTerm(n: string, term: nat, saved: bool)
    | HearGlobalLeader(n: string, head: GlobalIdentity, saved: bool)
    | WinGlobal(n: string, backers: map<string, string>, saved: bool)
    | Adopt(n: string, target: DomainIdentity, term: nat, saved: bool)
    | Revoke(n: string, saved: bool)
    | Crash(n: string)

  predicate Init(c: System) {
    && c.mem.Keys == c.disk.Keys == c.domainOf.Keys
    && (forall n :: n in c.mem ==> n != "" && c.domainOf[n] != "" && c.mem[n] == c.disk[n] == NEW_ELECTOR)
    && c.domainRequests == {} && c.globalRequests == {} && c.domainBallots == {} && c.globalBallots == {}
    && c.domainWins == {} && c.globalWins == {}
  }

  function Candidacy(c: System, n: string): DomainIdentity
    requires n in c.mem && n in c.domainOf
  {
    DomainIdentity(c.domainOf[n], n, c.mem[n].domainTerm)
  }

  predicate Enabled(c: System, s: Step) {
    && s.n in c.mem && s.n in c.disk && s.n in c.domainOf
    && match s
       case VoteDomain(_, r, _, _) => r in c.domainRequests
       case WinDomain(n, voters, _) =>
         && voters <= Members(c, c.domainOf[n])
         && |voters| >= Majority(|Members(c, c.domainOf[n])|)
         && (forall v :: v in voters ==> DomainBallot(v, c.mem[n].domainTerm, n) in c.domainBallots)
       case CampaignGlobal(n, _, _) => c.mem[n].domainRole == Leader && c.mem[n].domainLeader == Candidacy(c, n)
       case VoteGlobal(_, r, _, _) => r in c.globalRequests
       case WinGlobal(n, backers, _) =>
         && c.mem[n].domainRole == Leader && c.mem[n].globalVote.node == n
         && |backers| >= GlobalElectionThreshold(|Domains(c)|)
         && (forall d :: d in backers ==>
               && backers[d] in Members(c, d)
               && GlobalBallot(backers[d], c.mem[n].globalTerm, c.mem[n].globalVote) in c.globalBallots)
       case _ => true
  }

  /** The node's election state after the step. */
  function After(c: System, s: Step): Elector
    requires s.n in c.mem && s.n in c.disk && s.n in c.domainOf
  {
    var e := c.mem[s.n];
    match s
    case CampaignDomain(n, _, _) => StartDomainCampaign(e, n)
    case VoteDomain(_, r, log, _) => DomainVoted(e, log, r)
    case SeeDomainTerm(_, term, _) => ObserveDomainTerm(e, term)
    case HearDomainLeader(n, id, _) => AcceptDomainLeader(e, n, id)
    case WinDomain(n, _, _) => BecomeDomainLeader(e, Candidacy(c, n))
    case CampaignGlobal(n, _, _) => StartGlobalCampaign(e, Candidacy(c, n))
    case VoteGlobal(_, r, log, _) => GlobalVoted(e, log, r)
    case SeeGlobalTerm(_, term, _) => ObserveGlobalTerm(e, term)
    case HearGlobalLeader(n, id, _) => AcceptGlobalLeader(e, n, id)
    case WinGlobal(_, _, _) => BecomeGlobalLeader(e, GlobalIdentity(e.globalVote, e.globalTerm))
    case Adopt(_, target, term, _) => AdoptHandedOff(e, target, term)
    case Revoke(_, _) => RevokeGlobal(e)
    case Crash(n) => Restarted(c.disk[n])
  }

  function NewDomainBallots(c: System, s: Step): set<DomainBallot>
    requires s.n in c.mem
  {
    match s
    case CampaignDomain(n, _, true) => {DomainBallot(n, c.mem[n].domainTerm + 1, n)}
    case VoteDomain(n, r, log, true) =>
      if GrantsDomain(c.mem[n], log, r) then {DomainBallot(n, r.term, r.candidate)} else {}
    case _ => {}
  }

  function NewGlobalBallots(c: System, s: Step): set<GlobalBallot>
    requires s.n in c.mem && s.n in c.domainOf
  {
    match s
    case CampaignGlobal(n, _, true) => {GlobalBallot(n, c.mem[n].globalTerm + 1, Candidacy(c, n))}
    case VoteGlobal(n, r, log, true) =>
      if GrantsGlobal(c.mem[n], log, r) then {GlobalBallot(n, r.term, r.candidate)} else {}
    case _ => {}
  }

  function Do(c: System, s: Step): System
    requires Enabled(c, s)
  {
    var e := After(c, s);
    c.(mem := c.mem[s.n := e],
    disk := if s.Crash? || !s.saved then c.disk else c.disk[s.n := e],
    domainBallots := c.domainBallots + NewDomainBallots(c, s),
    globalBallots := c.globalBallots + NewGlobalBallots(c, s),
    domainRequests := if s.CampaignDomain? && s.saved
                      then c.domainRequests + {DomainVoteRequest(s.n, e.domainTerm, s.log)} else c.domainRequests,
    globalRequests := if s.CampaignGlobal? && s.saved
                      then c.globalRequests + {GlobalVoteRequest(e.globalVote, e.globalTerm, s.log)}
                      else c.globalRequests,
    domainWins := if s.WinDomain?
                  then c.domainWins + {DomainWin(c.domainOf[s.n], e.domainTerm, s.n, s.voters)} else c.domainWins,
    globalWins := if s.WinGlobal?
                  then c.globalWins + {GlobalWin(e.globalTerm, c.mem[s.n].globalVote, s.backers)} else c.globalWins)
  }

  predicate Run(c: System, steps: seq<Step>, d: System)
    decreases |steps|
  {
    if steps == [] then d == c
    else Enabled(c, steps[0]) && Run(Do(c, steps[0]), steps[1..], d)
  }

  ghost predicate Reachable(d: System) {
    exists c, steps :: Init(c) && Run(c, steps, d)
  }

  // ---------------------------------------------------------------- invariant

  /** The node is past the ballot's term, or still bound by it. */
  predicate DomainBound(e: Elector, b: DomainBallot) {
    e.domainTerm > b.term || (e.domainTerm == b.term && e.domainVote == b.candidate)
  }

  predicate GlobalBound(e: Elector, b: GlobalBallot) {
    e.globalTerm > b.term || (e.globalTerm == b.term && e.globalVote == b.candidate)
  }

  predicate DomainBallotOk(c: System, b: DomainBallot) {
    && b.term > 0 && b.candidate != "" && b.voter in c.mem && b.voter in c.disk
    && DomainBound(c.mem[b.voter], b) && DomainBound(c.disk[b.voter], b)
  }

  predicate GlobalBallotOk(c: System, b: GlobalBallot) {
    && b.candidate.Valid() && b.voter in c.mem && b.voter in c.disk
    && GlobalBound(c.mem[b.voter], b) && GlobalBound(c.disk[b.voter], b)
  }

  predicate OneDomainVote(ballots: set<DomainBallot>) {
    forall a, b :: a in ballots && b in ballots && a.voter == b.voter && a.term == b.term ==> a == b
  }

  predicate OneGlobalVote(ballots: set<GlobalBallot>) {
    forall a, b :: a in ballots && b in ballots && a.voter == b.voter && a.term == b.term ==> a == b
  }

  predicate DomainWinOk(c: System, w: DomainWin) {
    && w.voters <= Members(c, w.domain) && |w.voters| >= Majority(|Members(c, w.domain)|)
    && (forall v :: v in w.voters ==> DomainBallot(v, w.term, w.node) in c.domainBallots)
  }

  predicate GlobalWinOk(c: System, w: GlobalWin) {
    && w.backers.Keys <= Domains(c) && |w.backers| >= GlobalElectionThreshold(|Domains(c)|)
    && (forall d :: d in w.backers ==> GlobalBallot(w.backers[d], w.term, w.candidate) in c.globalBallots)
  }

  predicate NodeOk(c: System, n: string)
    requires n in c.mem && n in c.disk && n in c.domainOf
  {
    && n != "" && c.domainOf[n] != ""
    && c.mem[n].domainTerm >= c.disk[n].domainTerm && c.mem[n].globalTerm >= c.disk[n].globalTerm
    && (c.mem[n].domainRole == Leader ==> c.mem[n].domainTerm > 0)
  }

  predicate RequestsOk(c: System) {
    && (forall r :: r in c.domainRequests ==> r.candidate != "" && r.term > 0)
    && (forall r :: r in c.globalRequests ==> r.candidate.Valid())
  }

  predicate BallotsOk(c: System) {
    && (forall b :: b in c.domainBallots ==> DomainBallotOk(c, b))
    && (forall b :: b in c.globalBallots ==> GlobalBallotOk(c, b))
    && OneDomainVote(c.domainBallots) && OneGlobalVote(c.globalBallots)
  }

  predicate WinsOk(c: System) {
    && (forall w :: w in c.domainWins ==> DomainWinOk(c, w))
    && (forall w :: w in c.globalWins ==> GlobalWinOk(c, w))
  }

  predicate NodesOk(c: System) {
    && c.mem.Keys == c.disk.Keys == c.domainOf.Keys
    && (forall n :: n in c.mem ==> NodeOk(c, n))
  }

  predicate SystemInv(c: System) {
    NodesOk(c) && RequestsOk(c) && BallotsOk(c) && WinsOk(c)
  }

  // ------------------------------------------------------------- preservation

  /** No transition releases a node from an earlier ballot of either tier, and none but a crash
      lowers a term. */
  lemma TransitionBinds(c: System, s: Step)
    requires SystemInv(c) && Enabled(c, s)
    ensures var e := After(c, s);
            && (forall b :: b in c.domainBallots && b.voter == s.n ==> DomainBound(e, b))
            && (forall b :: b in c.globalBallots && b.voter == s.n ==> GlobalBound(e, b))
            && (!s.Crash? ==> e.domainTerm >= c.mem[s.n].domainTerm && e.globalTerm >= c.mem[s.n].globalTerm)
            && e.domainTerm >= c.disk[s.n].domainTerm && e.globalTerm >= c.disk[s.n].globalTerm
  {
    assert NodeOk(c, s.n);
    var e := After(c, s);
    forall b | b in c.domainBallots && b.voter == s.n ensures DomainBound(e, b) {
      assert DomainBallotOk(c, b);
    }
    forall b | b in c.globalBallots && b.voter == s.n ensures GlobalBound(e, b) {
      assert GlobalBallotOk(c, b);
    }
  }

  /** A leader's term is positive: it was won with ballots, and ballots have positive terms. */
  lemma WinsPositive(c: System, n: string, voters: set<string>)
    requires SystemInv(c) && n in c.mem && |voters| > 0
    requires forall v :: v in voters ==> DomainBallot(v, c.mem[n].domainTerm, n) in c.domainBallots
    ensures c.mem[n].domainTerm > 0
  {
    var v :| v in voters;
    assert DomainBallotOk(c, DomainBallot(v, c.mem[n].domainTerm, n));
  }

  lemma LeaderPositive(c: System, s: Step)
    requires SystemInv(c) && Enabled(c, s)
    ensures After(c, s).domainRole == Leader ==> After(c, s).domainTerm > 0
  {
    assert NodeOk(c, s.n);
    if s.WinDomain? {
      WinsPositive(c, s.n, s.voters);
    }
  }

  lemma NodesKept(c: System, s: Step)
    requires SystemInv(c) && Enabled(c, s)
    ensures NodesOk(Do(c, s))
  {
    TransitionBinds(c, s);
    LeaderPositive(c, s);
    var d := Do(c, s);
    forall n | n in d.mem ensures NodeOk(d, n) {
      assert NodeOk(c, n);
    }
  }

  lemma NewRequestsOk(c: System, s: Step)
    requires NodesOk(c) && Enabled(c, s)
    ensures s.CampaignDomain? ==> s.n != "" && After(c, s).domainTerm > 0
    ensures s.CampaignGlobal? ==> After(c, s).globalVote.Valid()
  {
    assert NodeOk(c, s.n);
  }

  lemma RequestsKept(c: System, s: Step)
    requires NodesOk(c) && RequestsOk(c) && Enabled(c, s)
    ensures RequestsOk(Do(c, s))
  {
    NewRequestsOk(c, s);
    var d, e := Do(c, s), After(c, s);
    forall r | r in d.domainRequests ensures r.candidate != "" && r.term > 0 {
      assert r in c.domainRequests || r == DomainVoteRequest(s.n, e.domainTerm, s.log);
    }
    forall r | r in d.globalRequests ensures r.candidate.Valid() {
      assert r in c.globalRequests || r == GlobalVoteRequest(e.globalVote, e.globalTerm, s.log);
    }
  }

  /** A newly cast ballot binds its voter and does not contradict an earlier one. */
  lemma NewDomainBallotOk(c: System, s: Step, b: DomainBallot)
    requires SystemInv(c) && Enabled(c, s) && b in NewDomainBallots(c, s)
    ensures DomainBallotOk(Do(c, s), b)
    ensures forall a :: a in c.domainBallots && a.voter == b.voter && a.term == b.term ==> a == b
  {
    assert NodeOk(c, s.n);
    forall a | a in c.domainBallots && a.voter == b.voter && a.term == b.term ensures a == b {
      assert DomainBallotOk(c, a);
    }
  }

  lemma NewGlobalBallotOk(c: System, s: Step, b: GlobalBallot)
    requires SystemInv(c) && Enabled(c, s) && b in NewGlobalBallots(c, s)
    ensures GlobalBallotOk(Do(c, s), b)
    ensures forall a :: a in c.globalBallots && a.voter == b.voter && a.term == b.term ==> a == b
  {
    assert NodeOk(c, s.n);
    forall a | a in c.globalBallots && a.voter == b.voter && a.term == b.term ensures a == b {
      assert GlobalBallotOk(c, a);
    }
  }

  lemma BallotsKept(c: System, s: Step)
    requires SystemInv(c) && Enabled(c, s)
    ensures BallotsOk(Do(c, s))
  {
    var d := Do(c, s);
    TransitionBinds(c, s);
    forall b | b in d.domainBallots
      ensures DomainBallotOk(d, b)
      ensures forall a :: a in c.domainBallots && a.voter == b.voter && a.term == b.term ==> a == b
    {
      if b in c.domainBallots { assert DomainBallotOk(c, b); } else { NewDomainBallotOk(c, s, b); }
    }
    forall b | b in d.globalBallots
      ensures GlobalBallotOk(d, b)
      ensures forall a :: a in c.globalBallots && a.voter == b.voter && a.term == b.term ==> a == b
    {
      if b in c.globalBallots { assert GlobalBallotOk(c, b); } else { NewGlobalBallotOk(c, s, b); }
    }
  }

  lemma WinsKept(c: System, s: Step)
    requires SystemInv(c) && Enabled(c, s)
    ensures WinsOk(Do(c, s))
  {
    var d := Do(c, s);
    assert forall x :: Members(d, x) == Members(c, x);
    assert Domains(d) == Domains(c);
    forall w | w in d.domainWins ensures DomainWinOk(d, w) {
      if w in c.domainWins { assert DomainWinOk(c, w); }
    }
    forall w | w in d.globalWins ensures GlobalWinOk(d, w) {
      if w in c.globalWins { assert GlobalWinOk(c, w); }
    }
  }

  lemma {:induction false} RunKeeps(c: System, steps: seq<Step>, d: System)
    requires SystemInv(c) && Run(c, steps, d)
    ensures SystemInv(d)
    decreases |steps|
  {
    if steps != [] {
      NodesKept(c, steps[0]);
      RequestsKept(c, steps[0]);
      BallotsKept(c, steps[0]);
      WinsKept(c, steps[0]);
      RunKeeps(Do(c, steps[0]), steps[1..], d);
    }
  }

  lemma ReachableInv(d: System)
    requires Reachable(d)
    ensures SystemInv(d)
  {
    var c, steps :| Init(c) && Run(c, steps, d);
    RunKeeps(c, steps, d);
  }

  // ----------------------------------------------------------------- theorems

  /** Domain election safety: at most one node ever gathers a majority in a domain and term. */
  lemma DomainElectionSafety(c: System, w1: DomainWin, w2: DomainWin)
    requires Reachable(c) && w1 in c.domainWins && w2 in c.domainWins
    requires w1.domain == w2.domain && w1.term == w2.term
    ensures w1.node == w2.node
  {
    ReachableInv(c);
    assert DomainWinOk(c, w1) && DomainWinOk(c, w2);
    var v := MajoritiesShare(Members(c, w1.domain), w1.voters, w2.voters);
    var a, b := DomainBallot(v, w1.term, w1.node), DomainBallot(v, w2.term, w2.node);
    assert a in c.domainBallots && b in c.domainBallots;
  }

  /** Terms never decrease: not on disk in any step, and in memory only by a crash, which never
      falls below what was saved or below a term in which the node voted. */
  lemma TermsGrow(c: System, s: Step, n: string)
    requires Reachable(c) && Enabled(c, s) && n in c.mem
    ensures n in c.disk
    ensures var d := Do(c, s);
            && d.disk[n].domainTerm >= c.disk[n].domainTerm && d.disk[n].globalTerm >= c.disk[n].globalTerm
            && (!s.Crash? ==> d.mem[n].domainTerm >= c.mem[n].domainTerm && d.mem[n].globalTerm >= c.mem[n].globalTerm)
            && (forall b :: b in d.domainBallots && b.voter == n ==> d.mem[n].domainTerm >= b.term)
            && (forall b :: b in d.globalBallots && b.voter == n ==> d.mem[n].globalTerm >= b.term)
  {
    ReachableInv(c);
    TransitionBinds(c, s);
    BallotsKept(c, s);
    var d := Do(c, s);
    forall b | b in d.domainBallots && b.voter == n ensures d.mem[n].domainTerm >= b.term {
      assert DomainBallotOk(d, b);
    }
    forall b | b in d.globalBallots && b.voter == n ensures d.mem[n].globalTerm >= b.term {
      assert GlobalBallotOk(d, b);
    }
  }

  /** No node ever votes for two candidates in one global term. */
  lemma OneVotePerGlobalTerm(c: System, a: GlobalBallot, b: GlobalBallot)
    requires Reachable(c) && a in c.globalBallots && b in c.globalBallots
    requires a.voter == b.voter && a.term == b.term
    ensures a.candidate == b.candidate
  {
    ReachableInv(c);
  }

  /** Global election safety relative to domain stability: two different winners of one term
      mean that some domain backed them through two different nodes. */
  lemma RivalsSplitADomain(c: System, w1: GlobalWin, w2: GlobalWin) returns (d: string)
    requires Reachable(c) && Domains(c) != {} && w1 in c.globalWins && w2 in c.globalWins
    requires w1.term == w2.term && w1.candidate != w2.candidate
    ensures d in w1.backers && d in w2.backers && w1.backers[d] != w2.backers[d]
  {
    ReachableInv(c);
    assert GlobalWinOk(c, w1) && GlobalWinOk(c, w2);
    assert |w1.backers.Keys| == |w1.backers| && |w2.backers.Keys| == |w2.backers|;
    d := ThresholdsShare(Domains(c), w1.backers.Keys, w2.backers.Keys);
    if w1.backers[d] == w2.backers[d] {
      OneVotePerGlobalTerm(c, GlobalBallot(w1.backers[d], w1.term, w1.candidate),
                           GlobalBallot(w2.backers[d], w2.term, w2.candidate));
    }
  }

  /** With one voting Domain Leader per domain, the Global Leader of a term is unique. */
  lemma GlobalElectionSafety(c: System, w1: GlobalWin, w2: GlobalWin)
    requires Reachable(c) && Domains(c) != {} && w1 in c.globalWins && w2 in c.globalWins
    requires w1.term == w2.term
    requires forall d :: d in w1.backers && d in w2.backers ==> w1.backers[d] == w2.backers[d]
    ensures w1.candidate == w2.candidate
  {
    if w1.candidate != w2.candidate {
      var d := RivalsSplitADomain(c, w1, w2);
    }
  }

  // ------------------------------------------------------ a leadership transfer

  predicate Uncrashed(steps: seq<Step>, n: string) {
    forall i :: 0 <= i < |steps| ==> steps[i] != Crash(n)
  }

  lemma StepTerms(c: System, s: Step, n: string)
    requires SystemInv(c) && Enabled(c, s) && s != Crash(n) && n in c.mem
    ensures SystemInv(Do(c, s)) && n in Do(c, s).mem
    ensures Do(c, s).mem[n].globalTerm >= c.mem[n].globalTerm && c.globalWins <= Do(c, s).globalWins
  {
    NodesKept(c, s);
    RequestsKept(c, s);
    BallotsKept(c, s);
    WinsKept(c, s);
    if s.n == n {
      TransitionBinds(c, s);
    }
  }

  /** As long as a node does not crash, its global term only grows; a win is never forgotten. */
  lemma {:induction false} RunTerms(c: System, steps: seq<Step>, d: System, n: string)
    requires SystemInv(c) && Run(c, steps, d) && Uncrashed(steps, n) && n in c.mem
    ensures SystemInv(d) && n in d.mem
    ensures d.mem[n].globalTerm >= c.mem[n].globalTerm && c.globalWins <= d.globalWins
    decreases |steps|
  {
    if steps != [] {
      StepTerms(c, steps[0], n);
      RunTerms(Do(c, steps[0]), steps[1..], d, n);
    }
  }

  lemma {:induction false} RunSplit(c: System, xs: seq<Step>, ys: seq<Step>, d: System) returns (m: System)
    requires Run(c, xs + ys, d)
    ensures Run(c, xs, m) && Run(m, ys, d)
    decreases |xs|
  {
    if xs == [] {
      assert xs + ys == ys;
      m := c;
    } else {
      assert (xs + ys)[0] == xs[0] && (xs + ys)[1..] == xs[1..] + ys;
      m := RunSplit(Do(c, xs[0]), xs[1..], ys, d);
    }
  }

  /** beginMigration on node n, from its checks in c to its answer in d: it honours the request only
      in the very term it follows, then campaigns and answers once it has won, while anything else
      happens in between, on this node and elsewhere. `followed` is the Global Leader it follows. */
  predicate TransferRun(c: System, n: string, fromTerm: nat, followed: GlobalIdentity, before: seq<Step>,
                        campaign: Step, during: seq<Step>, win: Step, after: seq<Step>, d: System)
  {
    && n in c.mem && fromTerm != 0 && fromTerm == c.mem[n].globalTerm
    && followed.Valid() && followed.term == fromTerm
    && c.mem[n].domainRole == Leader && c.mem[n].domainLeader.node == n
    && !(c.mem[n].globalRole == Leader && followed.domainLeader.node == n)
    && campaign.CampaignGlobal? && campaign.n == n && campaign.saved
    && win.WinGlobal? && win.n == n
    && Uncrashed(before, n) && Uncrashed(during, n) && Uncrashed(after, n)
    && Run(c, before + ([campaign] + (during + ([win] + after))), d)
  }

  /** A node that accepts a leadership transfer has won a term strictly above the one it was asked
      from, and answers with a term no lower than the one it won. */
  lemma TransferRaisesTerm(c: System, n: string, fromTerm: nat, followed: GlobalIdentity, before: seq<Step>,
                           campaign: Step, during: seq<Step>, win: Step, after: seq<Step>, d: System)
    returns (won: GlobalWin)
    requires Reachable(c) && TransferRun(c, n, fromTerm, followed, before, campaign, during, win, after, d)
    ensures n in d.mem && won in d.globalWins && won.candidate.node == n
    ensures fromTerm < won.term <= d.mem[n].globalTerm
  {
    ReachableInv(c);
    var c1 := RunSplit(c, before, [campaign] + (during + ([win] + after)), d);
    RunTerms(c, before, c1, n);
    won := AfterCampaign(c1, campaign, during, win, after, d);
  }

  lemma AfterCampaign(c: System, campaign: Step, during: seq<Step>, win: Step, after: seq<Step>, d: System)
    returns (won: GlobalWin)
    requires SystemInv(c) && campaign.CampaignGlobal? && win.WinGlobal? && win.n == campaign.n
    requires Uncrashed(during, win.n) && Uncrashed(after, win.n)
    requires Run(c, [campaign] + (during + ([win] + after)), d)
    ensures win.n in c.mem && win.n in d.mem && won in d.globalWins && won.candidate.node == win.n
    ensures c.mem[win.n].globalTerm < won.term <= d.mem[win.n].globalTerm
  {
    var c1 := RunSplit(c, [campaign], during + ([win] + after), d);
    Campaigned(c, campaign, c1);
    RunTerms(c, [campaign], c1, win.n);
    var c2 := RunSplit(c1, during, [win] + after, d);
    RunTerms(c1, during, c2, win.n);
    won := AfterWin(c2, win, after, d);
  }

  lemma AfterWin(c: System, win: Step, after: seq<Step>, d: System) returns (won: GlobalWin)
    requires SystemInv(c) && win.WinGlobal? && Uncrashed(after, win.n) && Run(c, [win] + after, d)
    ensures win.n in c.mem && win.n in d.mem && won in d.globalWins && won.candidate.node == win.n
    ensures c.mem[win.n].globalTerm == won.term <= d.mem[win.n].globalTerm
  {
    var c1 := RunSplit(c, [win], after, d);
    won := Won(c, win, c1);
    RunTerms(c, [win], c1, win.n);
    RunTerms(c1, after, d, win.n);
  }

  lemma Campaigned(c: System, s: Step, d: System)
    requires Run(c, [s], d) && s.CampaignGlobal?
    ensures s.n in c.mem && s.n in d.mem && d.mem[s.n].globalTerm == c.mem[s.n].globalTerm + 1
  {
    assert Run(Do(c, s), [s][1..], d);
  }

  lemma Won(c: System, s: Step, d: System) returns (w: GlobalWin)
    requires Run(c, [s], d) && s.WinGlobal?
    ensures s.n in c.mem && s.n in d.mem && w in d.globalWins && w.candidate.node == s.n
    ensures w.term == c.mem[s.n].globalTerm == d.mem[s.n].globalTerm
  {
    assert Run(Do(c, s), [s][1..], d);
    w := GlobalWin(c.mem[s.n].globalTerm, c.mem[s.n].globalVote, s.backers);
  }
}
