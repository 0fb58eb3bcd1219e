/** The up-to-date rule over runs of the elections: every vote on record was cast on a log no further
    than its candidate's, so a winner's log is at least as up to date as that of every node that
    backed it. A trail is a run that remembers the logs its votes compared. */
module VoteEvidence {
  import opened Types
  import opened Quorums
  import opened Elections
  import opened ElectionRuns

  datatype DomainGrant = DomainGrant(voter: string, r: DomainVoteRequest, own: LogSummary)
  datatype GlobalGrant = GlobalGrant(voter: string, r: GlobalVoteRequest, own: LogSummary)

  datatype Trail = Trail(sys: System, domainGrants: set<DomainGrant>, globalGrants: set<GlobalGrant>)

  /** A candidate compares its own log with itself. */
  function DomainCast(c: System, s: Step): set<DomainGrant>
    requires s.n in c.mem
  {
    match s
    case CampaignDomain(n, log, true) => {DomainGrant(n, DomainVoteRequest(n, c.mem[n].domainTerm + 1, log), log)}
    case VoteDomain(n, r, log, true) => if GrantsDomain(c.mem[n], log, r) then {DomainGrant(n, r, log)} else {}
    case _ => {}
  }

  function GlobalCast(c: System, s: Step): set<GlobalGrant>
    requires s.n in c.mem && s.n in c.domainOf
  {
    match s
    case CampaignGlobal(n, log, true) =>
      {GlobalGrant(n, GlobalVoteRequest(Candidacy(c, n), c.mem[n].globalTerm + 1, log), log)}
    case VoteGlobal(n, r, log, true) => if GrantsGlobal(c.mem[n], log, r) then {GlobalGrant(n, r, log)} else {}
    case _ => {}
  }

  function Next(t: Trail, s: Step): Trail
    requires Enabled(t.sys, s)
  {
    Trail(Do(t.sys, s), t.domainGrants + DomainCast(t.sys, s), t.globalGrants + GlobalCast(t.sys, s))
  }

  predicate Trails(t: Trail, steps: seq<Step>, u: Trail)
    decreases |steps|
  {
    if steps == [] then u == t
    else Enabled(t.sys, steps[0]) && Trails(Next(t, steps[0]), steps[1..], u)
  }

  predicate Blank(t: Trail) {
    Init(t.sys) && t.domainGrants == {} && t.globalGrants == {}
  }

  ghost predicate Reached(u: Trail) {
    exists t, steps :: Blank(t) && Trails(t, steps, u)
  }

  /** Every run leaves a trail. */
  lemma {:induction false} RunTrails(t: Trail, steps: seq<Step>, d: System) returns (u: Trail)
    requires Run(t.sys, steps, d)
    ensures Trails(t, steps, u) && u.sys == d
    decreases |steps|
  {
    if steps == [] {
      u := t;
    } else {
      u := RunTrails(Next(t, steps[0]), steps[1..], d);
    }
  }

  lemma EveryRunTrails(d: System) returns (u: Trail)
    requires Reachable(d)
    ensures Reached(u) && u.sys == d
  {
    var c, steps :| Init(c) && Run(c, steps, d);
    u := RunTrails(Trail(c, {}, {}), steps, d);
    assert Blank(Trail(c, {}, {}));
  }

  // ---------------------------------------------------------------- invariant

  predicate DomainCastFor(grants: set<DomainGrant>, b: DomainBallot) {
    exists g :: g in grants && g.voter == b.voter && g.r.term == b.term && g.r.candidate == b.candidate
  }

  predicate GlobalCastFor(grants: set<GlobalGrant>, b: GlobalBallot) {
    exists g :: g in grants && g.voter == b.voter && g.r.term == b.term && g.r.candidate == b.candidate
  }

  /** A candidate is past every campaign it announced, on disk too, and announces one per term. */
  predicate DomainCampaigns(c: System) {
    && (forall r :: r in c.domainRequests ==>
          && r.candidate in c.mem && r.candidate in c.disk
          && c.mem[r.candidate].domainTerm >= r.term && c.disk[r.candidate].domainTerm >= r.term)
    && (forall q, r :: q in c.domainRequests && r in c.domainRequests ==>
          (q.candidate == r.candidate && q.term == r.term ==> q == r))
  }

  predicate GlobalCampaigns(c: System) {
    && (forall r :: r in c.globalRequests ==>
          && r.candidate.node in c.mem && r.candidate.node in c.disk
          && c.mem[r.candidate.node].globalTerm >= r.term && c.disk[r.candidate.node].globalTerm >= r.term)
    && (forall q, r :: q in c.globalRequests && r in c.globalRequests ==>
          (q.candidate.node == r.candidate.node && q.term == r.term ==> q == r))
  }

  predicate DomainVotes(t: Trail) {
    && (forall g :: g in t.domainGrants ==> g.r in t.sys.domainRequests && UpToDate(g.r.log, g.own))
    && (forall b :: b in t.sys.domainBallots ==> DomainCastFor(t.domainGrants, b))
  }

  predicate GlobalVotes(t: Trail) {
    && (forall g :: g in t.globalGrants ==> g.r in t.sys.globalRequests && UpToDate(g.r.log, g.own))
    && (forall b :: b in t.sys.globalBallots ==> GlobalCastFor(t.globalGrants, b))
  }

  predicate TrailInv(t: Trail) {
    && SystemInv(t.sys) && DomainCampaigns(t.sys) && GlobalCampaigns(t.sys)
    && DomainVotes(t) && GlobalVotes(t)
  }

  // ------------------------------------------------------------- preservation

  /** Terms never fall, not even by a crash, below what is on disk. */
  lemma TermsHold(c: System, s: Step, n: string)
    requires SystemInv(c) && Enabled(c, s) && n in c.mem
    ensures var d := Do(c, s);
            && n in d.mem && n in d.disk && n in c.disk
            && d.disk[n].domainTerm >= c.disk[n].domainTerm && d.disk[n].globalTerm >= c.disk[n].globalTerm
            && d.mem[n].domainTerm >= c.disk[n].domainTerm && d.mem[n].globalTerm >= c.disk[n].globalTerm
            && (s != Crash(n) ==>
                  d.mem[n].domainTerm >= c.mem[n].domainTerm && d.mem[n].globalTerm >= c.mem[n].globalTerm)
  {
    assert NodeOk(c, n);
    TransitionBinds(c, s);
  }

  lemma DomainCampaignsKept(c: System, s: Step)
    requires SystemInv(c) && DomainCampaigns(c) && Enabled(c, s)
    ensures DomainCampaigns(Do(c, s))
  {
    var d := Do(c, s);
    forall r | r in d.domainRequests
      ensures r.candidate in d.mem && r.candidate in d.disk
      ensures d.mem[r.candidate].domainTerm >= r.term && d.disk[r.candidate].domainTerm >= r.term
    {
      if r in c.domainRequests { TermsHold(c, s, r.candidate); }
    }
  }

  lemma GlobalCampaignsKept(c: System, s: Step)
    requires SystemInv(c) && GlobalCampaigns(c) && Enabled(c, s)
    ensures GlobalCampaigns(Do(c, s))
  {
    var d := Do(c, s);
    forall r | r in d.globalRequests
      ensures r.candidate.node in d.mem && r.candidate.node in d.disk
      ensures d.mem[r.candidate.node].globalTerm >= r.term && d.disk[r.candidate.node].globalTerm >= r.term
    {
      if r in c.globalRequests { TermsHold(c, s, r.candidate.node); }
    }
  }

  lemma DomainCastOk(c: System, s: Step)
    requires Enabled(c, s)
    ensures forall g :: g in DomainCast(c, s) ==> g.r in Do(c, s).domainRequests && UpToDate(g.r.log, g.own)
    ensures forall b :: b in NewDomainBallots(c, s) ==> DomainCastFor(DomainCast(c, s), b)
  {
    forall b | b in NewDomainBallots(c, s) ensures DomainCastFor(DomainCast(c, s), b) {
      if s.CampaignDomain? {
        assert DomainGrant(s.n, DomainVoteRequest(s.n, c.mem[s.n].domainTerm + 1, s.log), s.log) in DomainCast(c, s);
      } else {
        assert DomainGrant(s.n, s.dr, s.log) in DomainCast(c, s);
      }
    }
  }

  lemma GlobalCastOk(c: System, s: Step)
    requires Enabled(c, s)
    ensures forall g :: g in GlobalCast(c, s) ==> g.r in Do(c, s).globalRequests && UpToDate(g.r.log, g.own)
    ensures forall b :: b in NewGlobalBallots(c, s) ==> GlobalCastFor(GlobalCast(c, s), b)
  {
    forall b | b in NewGlobalBallots(c, s) ensures GlobalCastFor(GlobalCast(c, s), b) {
      if s.CampaignGlobal? {
        assert GlobalGrant(s.n, GlobalVoteRequest(Candidacy(c, s.n), c.mem[s.n].globalTerm + 1, s.log), s.log)
               in GlobalCast(c, s);
      } else {
        assert GlobalGrant(s.n, s.gr, s.log) in GlobalCast(c, s);
      }
    }
  }

  lemma DomainVotesKept(t: Trail, s: Step)
    requires DomainVotes(t) && Enabled(t.sys, s)
    ensures DomainVotes(Next(t, s))
  {
    DomainCastOk(t.sys, s);
    var u := Next(t, s);
    forall b | b in u.sys.domainBallots ensures DomainCastFor(u.domainGrants, b) {
      assert b in t.sys.domainBallots ==> DomainCastFor(t.domainGrants, b);
    }
  }

  lemma GlobalVotesKept(t: Trail, s: Step)
    requires GlobalVotes(t) && Enabled(t.sys, s)
    ensures GlobalVotes(Next(t, s))
  {
    GlobalCastOk(t.sys, s);
    var u := Next(t, s);
    forall b | b in u.sys.globalBallots ensures GlobalCastFor(u.globalGrants, b) {
      assert b in t.sys.globalBallots ==> GlobalCastFor(t.globalGrants, b);
    }
  }

  lemma {:induction false} TrailsKeep(t: Trail, steps: seq<Step>, u: Trail)
    requires TrailInv(t) && Trails(t, steps, u)
    ensures TrailInv(u)
    decreases |steps|
  {
    if steps != [] {
      NodesKept(t.sys, steps[0]);
      RequestsKept(t.sys, steps[0]);
      BallotsKept(t.sys, steps[0]);
      WinsKept(t.sys, steps[0]);
      DomainCampaignsKept(t.sys, steps[0]);
      GlobalCampaignsKept(t.sys, steps[0]);
      DomainVotesKept(t, steps[0]);
      GlobalVotesKept(t, steps[0]);
      TrailsKeep(Next(t, steps[0]), steps[1..], u);
    }
  }

  lemma ReachedInv(u: Trail)
    requires Reached(u)
    ensures TrailInv(u)
  {
    var t, steps :| Blank(t) && Trails(t, steps, u);
    BlankInv(t);
    TrailsKeep(t, steps, u);
  }

  lemma BlankInv(t: Trail)
    requires Blank(t)
    ensures TrailInv(t)
  {
  }

  // ----------------------------------------------------------------- theorems

  lemma DomainGrantOf(u: Trail, w: DomainWin, v: string) returns (g: DomainGrant)
    requires DomainVotes(u) && DomainWinOk(u.sys, w) && v in w.voters
    ensures g in u.domainGrants && g.voter == v && g.r in u.sys.domainRequests && UpToDate(g.r.log, g.own)
    ensures g.r.candidate == w.node && g.r.term == w.term
  {
    assert DomainCastFor(u.domainGrants, DomainBallot(v, w.term, w.node));
    g :| g in u.domainGrants && g.voter == v && g.r.term == w.term && g.r.candidate == w.node;
  }

  lemma GlobalGrantOf(u: Trail, w: GlobalWin, d: string) returns (g: GlobalGrant)
    requires GlobalVotes(u) && GlobalWinOk(u.sys, w) && d in w.backers
    ensures g in u.globalGrants && g.voter == w.backers[d] && g.r in u.sys.globalRequests
    ensures UpToDate(g.r.log, g.own) && g.r.candidate == w.candidate && g.r.term == w.term
  {
    assert GlobalCastFor(u.globalGrants, GlobalBallot(w.backers[d], w.term, w.candidate));
    g :| g in u.globalGrants && g.voter == w.backers[d] && g.r.term == w.term && g.r.candidate == w.candidate;
  }

  lemma SomeBacker(c: System, w: GlobalWin) returns (d: string)
    requires GlobalWinOk(c, w) && Domains(c) != {}
    ensures d in w.backers
  {
    assert |w.backers.Keys| == |w.backers| > 0;
    d :| d in w.backers.Keys;
  }

  /** Over every run, a Domain Leader's log, as it campaigned, is at least as up to date as that of
      every voter behind it, as it voted. */
  lemma DomainLeaderUpToDate(u: Trail, w: DomainWin) returns (r: DomainVoteRequest)
    requires Reached(u) && w in u.sys.domainWins
    ensures r in u.sys.domainRequests && r.candidate == w.node && r.term == w.term
    ensures forall q :: q in u.sys.domainRequests && q.candidate == w.node && q.term == w.term ==> q == r
    ensures forall v :: v in w.voters ==>
              exists own :: DomainGrant(v, r, own) in u.domainGrants && UpToDate(r.log, own)
  {
    ReachedInv(u);
    r := DomainWinner(u, w);
  }

  lemma DomainWinner(u: Trail, w: DomainWin) returns (r: DomainVoteRequest)
    requires DomainVotes(u) && DomainCampaigns(u.sys) && DomainWinOk(u.sys, w)
    ensures r in u.sys.domainRequests && r.candidate == w.node && r.term == w.term
    ensures forall q :: q in u.sys.domainRequests && q.candidate == w.node && q.term == w.term ==> q == r
    ensures forall v :: v in w.voters ==>
              exists own :: DomainGrant(v, r, own) in u.domainGrants && UpToDate(r.log, own)
  {
    var first :| first in w.voters;
    var g := DomainGrantOf(u, w, first);
    r := g.r;
    forall v | v in w.voters ensures exists own :: DomainGrant(v, r, own) in u.domainGrants && UpToDate(r.log, own) {
      var h := DomainGrantOf(u, w, v);
      assert h == DomainGrant(v, r, h.own);
    }
  }

  /** Over every run, a Global Leader's log, as it campaigned, is at least as up to date as that of
      every Domain Leader that backed it, as it voted. */
  lemma GlobalLeaderUpToDate(u: Trail, w: GlobalWin) returns (r: GlobalVoteRequest)
    requires Reached(u) && w in u.sys.globalWins && Domains(u.sys) != {}
    ensures r in u.sys.globalRequests && r.candidate == w.candidate && r.term == w.term
    ensures forall q :: q in u.sys.globalRequests && q.candidate == w.candidate && q.term == w.term ==> q == r
    ensures forall d :: d in w.backers ==>
              exists own :: GlobalGrant(w.backers[d], r, own) in u.globalGrants && UpToDate(r.log, own)
  {
    ReachedInv(u);
    r := GlobalWinner(u, w);
  }

  lemma GlobalWinner(u: Trail, w: GlobalWin) returns (r: GlobalVoteRequest)
    requires GlobalVotes(u) && GlobalCampaigns(u.sys) && GlobalWinOk(u.sys, w) && Domains(u.sys) != {}
    ensures r in u.sys.globalRequests && r.candidate == w.candidate && r.term == w.term
    ensures forall q :: q in u.sys.globalRequests && q.candidate == w.candidate && q.term == w.term ==> q == r
    ensures forall d :: d in w.backers ==>
              exists own :: GlobalGrant(w.backers[d], r, own) in u.globalGrants && UpToDate(r.log, own)
  {
    var first := SomeBacker(u.sys, w);
    var g := GlobalGrantOf(u, w, first);
    r := g.r;
    forall d | d in w.backers
      ensures exists own :: GlobalGrant(w.backers[d], r, own) in u.globalGrants && UpToDate(r.log, own)
    {
      var h := GlobalGrantOf(u, w, d);
      assert h == GlobalGrant(w.backers[d], r, h.own);
    }
  }

  /** The logs behind a Global Leader's win and the wins of its backers did not move: `summary` is what
      every one of these votes compared. */
  predicate LogsFixed(u: Trail, w: GlobalWin, led: map<string, DomainWin>, summary: map<string, LogSummary>) {
    && (forall g :: g in u.globalGrants && g.r.candidate == w.candidate && g.r.term == w.term ==>
          && g.voter in summary && summary[g.voter] == g.own
          && w.candidate.node in summary && summary[w.candidate.node] == g.r.log)
    && (forall d, g :: d in led && g in u.domainGrants && g.r.candidate == led[d].node && g.r.term == led[d].term ==>
          && g.voter in summary && summary[g.voter] == g.own
          && led[d].node in summary && summary[led[d].node] == g.r.log)
  }

  /** Each backing Domain Leader by its own win. */
  predicate LedBy(c: System, w: GlobalWin, led: map<string, DomainWin>) {
    && led.Keys == w.backers.Keys
    && (forall d :: d in led ==> DomainWinOk(c, led[d]) && led[d].domain == d && led[d].node == w.backers[d])
  }

  /** With logs fixed across both elections, a run's own wins make up the election certificate that
      the intersection with a commit certificate asks for. */
  lemma WinsCertify(u: Trail, w: GlobalWin, led: map<string, DomainWin>, summary: map<string, LogSummary>)
    requires Reached(u) && w in u.sys.globalWins && Domains(u.sys) != {}
    requires led.Keys == w.backers.Keys
    requires forall d :: d in led ==> led[d] in u.sys.domainWins && led[d].domain == d && led[d].node == w.backers[d]
    requires LogsFixed(u, w, led, summary)
    ensures ElectionCertificate(map d | d in Domains(u.sys) :: Members(u.sys, d), map d | d in led :: led[d].voters,
                                w.backers, w.candidate.node, summary)
  {
    ReachedInv(u);
    Certify(u, w, led, summary);
  }

  lemma Certify(u: Trail, w: GlobalWin, led: map<string, DomainWin>, summary: map<string, LogSummary>)
    requires GlobalVotes(u) && DomainVotes(u) && Domains(u.sys) != {}
    requires GlobalWinOk(u.sys, w) && LedBy(u.sys, w, led) && LogsFixed(u, w, led, summary)
    ensures ElectionCertificate(map d | d in Domains(u.sys) :: Members(u.sys, d), map d | d in led :: led[d].voters,
                                w.backers, w.candidate.node, summary)
  {
    Sizes(u.sys, w, led);
    GlobalPart(u, w, led, summary);
    DomainPart(u, w, led, summary);
    var d := SomeBacker(u.sys, w);
    Assemble(map d | d in Domains(u.sys) :: Members(u.sys, d), led, w.backers, w.candidate.node, d, summary);
  }

  lemma Assemble(members: map<string, set<string>>, led: map<string, DomainWin>, leader: map<string, string>,
                 winner: string, first: string, summary: map<string, LogSummary>)
    requires var backers := map d | d in led :: led[d].voters;
             && backers.Keys <= members.Keys && backers.Keys == leader.Keys
             && |backers| >= GlobalElectionThreshold(|members|)
             && forall d :: d in backers ==> backers[d] <= members[d] && |backers[d]| >= Majority(|members[d]|)
    requires first in leader
    requires forall d :: d in leader ==>
               leader[d] in summary && winner in summary && summary[winner].AtLeast(summary[leader[d]])
    requires forall d :: d in led ==> d in leader && led[d].node == leader[d]
    requires forall d, n :: d in led && n in led[d].voters ==>
               n in summary && led[d].node in summary && summary[led[d].node].AtLeast(summary[n])
    ensures ElectionCertificate(members, map d | d in led :: led[d].voters, leader, winner, summary)
  {
  }

  lemma Sizes(c: System, w: GlobalWin, led: map<string, DomainWin>)
    requires GlobalWinOk(c, w) && LedBy(c, w, led)
    ensures var members, backers := map d | d in Domains(c) :: Members(c, d), map d | d in led :: led[d].voters;
            && backers.Keys <= members.Keys && backers.Keys == w.backers.Keys
            && |backers| >= GlobalElectionThreshold(|members|)
            && forall d :: d in backers ==> backers[d] <= members[d] && |backers[d]| >= Majority(|members[d]|)
  {
    var members, backers := map d | d in Domains(c) :: Members(c, d), map d | d in led :: led[d].voters;
    assert members.Keys == Domains(c) && backers.Keys == w.backers.Keys;
    assert |members.Keys| == |members| && |backers.Keys| == |backers| && |w.backers.Keys| == |w.backers|;
  }

  lemma GlobalPart(u: Trail, w: GlobalWin, led: map<string, DomainWin>, summary: map<string, LogSummary>)
    requires GlobalVotes(u) && GlobalWinOk(u.sys, w) && LogsFixed(u, w, led, summary)
    ensures forall d :: d in w.backers ==>
              && w.backers[d] in summary && w.candidate.node in summary
              && summary[w.candidate.node].AtLeast(summary[w.backers[d]])
  {
    forall d | d in w.backers
      ensures w.backers[d] in summary && w.candidate.node in summary
      ensures summary[w.candidate.node].AtLeast(summary[w.backers[d]])
    {
      var g := GlobalGrantOf(u, w, d);
    }
  }

  lemma DomainPart(u: Trail, w: GlobalWin, led: map<string, DomainWin>, summary: map<string, LogSummary>)
    requires DomainVotes(u) && LedBy(u.sys, w, led) && LogsFixed(u, w, led, summary)
    ensures forall d, n :: d in led && n in led[d].voters ==>
              n in summary && led[d].node in summary && summary[led[d].node].AtLeast(summary[n])
  {
    forall d, n | d in led && n in led[d].voters
      ensures n in summary && led[d].node in summary && summary[led[d].node].AtLeast(summary[n])
    {
      var g := DomainGrantOf(u, led[d], n);
    }
  }
}
