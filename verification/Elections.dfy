/** The election transitions of internal/cdraft/transitions.go: as values, for reasoning over
    runs, and as the in-place updates the program performs. */
module Elections {
  import opened Types

  /** Election state of one node: persisted terms, votes and leaders, and its volatile roles. */
  datatype Elector = Elector(
    domainTerm: nat,
    domainVote: string,
    domainLeader: DomainIdentity,
    globalTerm: nat,
    globalVote: DomainIdentity,
    globalLeader: GlobalIdentity,
    domainRole: Role,
    globalRole: Role,
    stage: Stage)

  const NEW_ELECTOR :=
    Elector(0, "", NO_DOMAIN_LEADER, 0, NO_DOMAIN_LEADER, NO_GLOBAL_LEADER, Follower, Follower, Booting)

  datatype DomainVoteRequest = DomainVoteRequest(candidate: string, term: nat, log: LogSummary)
  datatype GlobalVoteRequest = GlobalVoteRequest(candidate: DomainIdentity, term: nat, log: LogSummary)

  // ------------------------------------------------------------- domain tier

  function StartDomainCampaign(e: Elector, self: string): Elector {
    e.(domainRole := Candidate, domainTerm := e.domainTerm + 1, domainVote := self, domainLeader := NO_DOMAIN_LEADER)
  }

  function ObserveDomainTerm(e: Elector, term: nat): Elector {
    if term <= e.domainTerm then e
    else e.(domainTerm := term, domainVote := "", domainLeader := NO_DOMAIN_LEADER, domainRole := Follower)
  }

  /** Whether a node with log `own` grants a domain vote. */
  predicate GrantsDomain(e: Elector, own: LogSummary, r: DomainVoteRequest) {
    && r.term >= e.domainTerm
    && (r.term > e.domainTerm || e.domainVote == "" || e.domainVote == r.candidate)
    && r.log.AtLeast(own)
  }

  function DomainVoted(e: Elector, own: LogSummary, r: DomainVoteRequest): Elector {
    var seen := ObserveDomainTerm(e, r.term);
    if GrantsDomain(e, own, r) then seen.(domainVote := r.candidate) else seen
  }

  function AcceptDomainLeader(e: Elector, self: string, id: DomainIdentity): Elector {
    if id.term < e.domainTerm then e
    else
      var seen := ObserveDomainTerm(e, id.term);
      seen.(domainLeader := id, domainRole := if id.node != self then Follower else seen.domainRole)
  }

  function BecomeDomainLeader(e: Elector, id: DomainIdentity): Elector {
    e.(domainRole := Leader, domainTerm := Max(e.domainTerm, id.term), domainLeader := id)
  }

  // ------------------------------------------------------------- global tier

  function StartGlobalCampaign(e: Elector, candidate: DomainIdentity): Elector {
    e.(globalRole := Candidate, globalTerm := e.globalTerm + 1, globalVote := candidate,
    globalLeader := NO_GLOBAL_LEADER)
  }

  function NoLongerServing(stage: Stage): Stage {
    if stage == Serving then GlobalElecting else stage
  }

  function ObserveGlobalTerm(e: Elector, term: nat): Elector {
    if term <= e.globalTerm then e
    else e.(globalTerm := term, globalVote := NO_DOMAIN_LEADER, globalLeader := NO_GLOBAL_LEADER,
         globalRole := Follower, stage := NoLongerServing(e.stage))
  }

  /** Whether a node with log `own` grants a global vote. */
  predicate GrantsGlobal(e: Elector, own: LogSummary, r: GlobalVoteRequest) {
    && r.term >= e.globalTerm
    && (r.term > e.globalTerm || !e.globalVote.Valid() || e.globalVote == r.candidate)
    && r.log.AtLeast(own)
  }

  function GlobalVoted(e: Elector, own: LogSummary, r: GlobalVoteRequest): Elector {
    var seen := ObserveGlobalTerm(e, r.term);
    if GrantsGlobal(e, own, r) then seen.(globalVote := r.candidate) else seen
  }

  function AcceptGlobalLeader(e: Elector, self: string, id: GlobalIdentity): Elector {
    if id.term < e.globalTerm then e
    else
      var seen := ObserveGlobalTerm(e, id.term);
      seen.(globalLeader := id, globalRole := if id.domainLeader.node != self then Follower else seen.globalRole,
      stage := Serving)
  }

  function BecomeGlobalLeader(e: Elector, id: GlobalIdentity): Elector {
    e.(globalTerm := Max(e.globalTerm, id.term), globalLeader := id, globalRole := Leader, stage := Serving)
  }

  function RevokeGlobal(e: Elector): Elector {
    e.(globalLeader := NO_GLOBAL_LEADER, globalRole := Follower, stage := NoLongerServing(e.stage))
  }

  /** adoptHandedOffLeaderLocked: moves the term forward but, unlike every other way of
      entering a term, leaves the vote of the earlier term in place. */
  function AdoptHandedOff(e: Elector, target: DomainIdentity, term: nat): Elector {
    if term >= e.globalTerm then e.(globalTerm := term, globalLeader := GlobalIdentity(target, term)) else e
  }

  /** A restarted node keeps its persisted state and forgets its roles. */
  function Restarted(e: Elector): Elector {
    e.(domainRole := Follower, globalRole := Follower, stage := DomainElecting)
  }

  // ------------------------------------------------------------- one call

  /** Log a ends in a later term than b, or in the same term at no earlier index. */
  predicate UpToDate(a: LogSummary, b: LogSummary) {
    a.lastTerm > b.lastTerm || (a.lastTerm == b.lastTerm && a.lastIndex >= b.lastIndex)
  }

  /** The comparison of logs is a total order on them, and term decides before length. */
  lemma LogsCompare(a: LogSummary, b: LogSummary, c: LogSummary)
    ensures a.AtLeast(b) <==> UpToDate(a, b)
    ensures a.AtLeast(b) || b.AtLeast(a)
    ensures a.AtLeast(b) && b.AtLeast(a) ==> a == b
    ensures a.AtLeast(b) && b.AtLeast(c) ==> a.AtLeast(c)
  {
  }

  /** When a domain vote is granted: never to an earlier term or to a log behind the voter's; in a
      later term to every other candidate, and in the current one to the candidate voted for
      already, or to anybody when there is none. A granted vote is recorded with its term. */
  lemma DomainVoteRule(e: Elector, own: LogSummary, r: DomainVoteRequest)
    ensures r.term < e.domainTerm || !UpToDate(r.log, own) ==> !GrantsDomain(e, own, r)
    ensures r.term > e.domainTerm && UpToDate(r.log, own) ==> GrantsDomain(e, own, r)
    ensures r.term == e.domainTerm && UpToDate(r.log, own) ==>
              (GrantsDomain(e, own, r) <==> e.domainVote == "" || e.domainVote == r.candidate)
    ensures GrantsDomain(e, own, r) ==>
              DomainVoted(e, own, r).domainTerm == r.term && DomainVoted(e, own, r).domainVote == r.candidate
    ensures !GrantsDomain(e, own, r) && r.term <= e.domainTerm ==> DomainVoted(e, own, r) == e
  {
  }

  /** The same for global votes. */
  lemma GlobalVoteRule(e: Elector, own: LogSummary, r: GlobalVoteRequest)
    ensures r.term < e.globalTerm || !UpToDate(r.log, own) ==> !GrantsGlobal(e, own, r)
    ensures r.term > e.globalTerm && UpToDate(r.log, own) ==> GrantsGlobal(e, own, r)
    ensures r.term == e.globalTerm && UpToDate(r.log, own) ==>
              (GrantsGlobal(e, own, r) <==> !e.globalVote.Valid() || e.globalVote == r.candidate)
    ensures GrantsGlobal(e, own, r) ==>
              GlobalVoted(e, own, r).globalTerm == r.term && GlobalVoted(e, own, r).globalVote == r.candidate
    ensures !GrantsGlobal(e, own, r) && r.term <= e.globalTerm ==> GlobalVoted(e, own, r) == e
  {
  }

  /** A campaigner is one term further, follows nobody, and refuses every other candidate of that
      term; the other tier is not concerned. */
  lemma CampaignsBind(e: Elector, self: string, candidate: DomainIdentity, own: LogSummary,
                      d: DomainVoteRequest, g: GlobalVoteRequest)
    requires self != "" && candidate.Valid()
    ensures var t := StartDomainCampaign(e, self);
            && t.domainTerm == e.domainTerm + 1 && t.domainRole == Candidate && !t.domainLeader.Valid()
            && (d.term == t.domainTerm && d.candidate != self ==> !GrantsDomain(t, own, d))
            && t.globalTerm == e.globalTerm && t.globalVote == e.globalVote && t.globalLeader == e.globalLeader
    ensures var t := StartGlobalCampaign(e, candidate);
            && t.globalTerm == e.globalTerm + 1 && t.globalRole == Candidate && !t.globalLeader.Valid()
            && (g.term == t.globalTerm && g.candidate != candidate ==> !GrantsGlobal(t, own, g))
            && t.domainTerm == e.domainTerm && t.domainVote == e.domainVote && t.domainLeader == e.domainLeader
  {
  }

  /** Whoever hears a leader of no earlier term is in its term and follows it; a later term frees the
      vote, the same term keeps it; a node that hears of another leader does not lead. An earlier
      leader is ignored. */
  lemma HearersFollow(e: Elector, self: string, d: DomainIdentity, g: GlobalIdentity)
    ensures d.term < e.domainTerm ==> AcceptDomainLeader(e, self, d) == e
    ensures var t := AcceptDomainLeader(e, self, d);
            d.term >= e.domainTerm ==>
              && t.domainTerm == d.term && t.domainLeader == d && (d.node != self ==> t.domainRole == Follower)
              && t.domainVote == if d.term == e.domainTerm then e.domainVote else ""
    ensures g.term < e.globalTerm ==> AcceptGlobalLeader(e, self, g) == e
    ensures var t := AcceptGlobalLeader(e, self, g);
            g.term >= e.globalTerm ==>
              && t.globalTerm == g.term && t.globalLeader == g && t.stage == Serving
              && (g.domainLeader.node != self ==> t.globalRole == Follower)
              && t.globalVote == if g.term == e.globalTerm then e.globalVote else NO_DOMAIN_LEADER
  {
  }

  /** A node that learns of a later term leads no more in that tier, follows nobody, and is free to
      vote; a winner leads, in the term it won. */
  lemma TermsDepose(e: Elector, term: nat, d: DomainIdentity, g: GlobalIdentity)
    ensures term > e.domainTerm ==>
              var t := ObserveDomainTerm(e, term);
              t.domainTerm == term && t.domainVote == "" && !t.domainLeader.Valid() && t.domainRole == Follower
    ensures term > e.globalTerm ==>
              var t := ObserveGlobalTerm(e, term);
              && t.globalTerm == term && !t.globalVote.Valid() && !t.globalLeader.Valid()
              && t.globalRole == Follower && t.stage == (if e.stage == Serving then GlobalElecting else e.stage)
    ensures !RevokeGlobal(e).globalLeader.Valid() && RevokeGlobal(e).globalRole == Follower
    ensures RevokeGlobal(e).stage == (if e.stage == Serving then GlobalElecting else e.stage)
    ensures RevokeGlobal(e).globalTerm == e.globalTerm && RevokeGlobal(e).globalVote == e.globalVote
    ensures d.term >= e.domainTerm ==>
              var t := BecomeDomainLeader(e, d);
              t.domainRole == Leader && t.domainLeader == d && t.domainTerm == d.term && t.domainVote == e.domainVote
    ensures g.term >= e.globalTerm ==>
              var t := BecomeGlobalLeader(e, g);
              && t.globalRole == Leader && t.globalLeader == g && t.globalTerm == g.term
              && t.globalVote == e.globalVote && t.stage == Serving
  {
  }

  /** A restarted node has its terms, votes and leaders, leads nothing and serves nothing. */
  lemma RestartForgets(e: Elector, own: LogSummary, d: DomainVoteRequest, g: GlobalVoteRequest)
    ensures var t := Restarted(e);
            && t.domainTerm == e.domainTerm && t.globalTerm == e.globalTerm
            && t.domainLeader == e.domainLeader && t.globalLeader == e.globalLeader
            && t.domainRole == Follower && t.globalRole == Follower && t.stage != Serving
            && (GrantsDomain(t, own, d) <==> GrantsDomain(e, own, d))
            && (GrantsGlobal(t, own, g) <==> GrantsGlobal(e, own, g))
  {
  }

  /** When a granted global vote binds the voter: a different candidate of the same term with
      an up-to-date log is then refused if and only if the first candidate's identity was
      valid. A vote for the zero identity, which the transition does grant, binds nothing. */
  lemma GlobalVoteBindsIffValid(e: Elector, own: LogSummary, first: GlobalVoteRequest, second: GlobalVoteRequest)
    requires GrantsGlobal(e, own, first)
    requires second.term == first.term && second.candidate != first.candidate && second.log.AtLeast(own)
    ensures !GrantsGlobal(GlobalVoted(e, own, first), own, second) <==> first.candidate.Valid()
  {
  }

  lemma ZeroIdentityIsGranted(e: Elector, own: LogSummary, second: GlobalVoteRequest)
    requires second.candidate.Valid() && second.log.AtLeast(own) && second.term > e.globalTerm
    ensures var first := GlobalVoteRequest(NO_DOMAIN_LEADER, second.term, second.log);
            GrantsGlobal(e, own, first) && GrantsGlobal(GlobalVoted(e, own, first), own, second)
  {
  }

  /** The same for domain votes, where the empty candidate name is the one that does not bind. */
  lemma DomainVoteBindsIffNamed(e: Elector, own: LogSummary, first: DomainVoteRequest, second: DomainVoteRequest)
    requires GrantsDomain(e, own, first)
    requires second.term == first.term && second.candidate != first.candidate && second.log.AtLeast(own)
    ensures !GrantsDomain(DomainVoted(e, own, first), own, second) <==> first.candidate != ""
  {
  }

  // ------------------------------------------------------------- in place

  /** The state the transitions update through pointers. */
  class State {
    var e: Elector

    constructor (initial: Elector)
      ensures e == initial
    {
      e := initial;
    }

    method TransitionStartDomainCampaign(self: string, summary: LogSummary) returns (term: nat, log: LogSummary)
      modifies this
      ensures e == StartDomainCampaign(old(e), self) && term == e.domainTerm && log == summary
    {
      e := e.(domainRole := Candidate);
      e := e.(domainTerm := e.domainTerm + 1);
      e := e.(domainVote := self);
      e := e.(domainLeader := NO_DOMAIN_LEADER);
      return e.domainTerm, summary;
    }

    method TransitionObserveHigherDomainTerm(term: nat) returns (changed: bool)
      modifies this
      ensures e == ObserveDomainTerm(old(e), term) && changed == (term > old(e).domainTerm)
    {
      if term <= e.domainTerm {
        return false;
      }
      e := e.(domainTerm := term);
      e := e.(domainVote := "");
      e := e.(domainLeader := NO_DOMAIN_LEADER);
      e := e.(domainRole := Follower);
      return true;
    }

    method TransitionDomainVote(own: LogSummary, r: DomainVoteRequest) returns (term: nat, granted: bool)
      modifies this
      ensures e == DomainVoted(old(e), own, r)
      ensures granted == GrantsDomain(old(e), own, r) && term == e.domainTerm
    {
      if r.term < e.domainTerm {
        return e.domainTerm, false;
      }
      if r.term > e.domainTerm {
        var _ := TransitionObserveHigherDomainTerm(r.term);
      }
      granted := (e.domainVote == "" || e.domainVote == r.candidate) && r.log.AtLeast(own);
      if granted {
        e := e.(domainVote := r.candidate);
      }
      term := e.domainTerm;
    }

    method TransitionAcceptDomainLeader(self: string, id: DomainIdentity) returns (accepted: bool)
      modifies this
      ensures e == AcceptDomainLeader(old(e), self, id) && accepted == (id.term >= old(e).domainTerm)
    {
      if id.term < e.domainTerm {
        return false;
      }
      if id.term > e.domainTerm {
        var _ := TransitionObserveHigherDomainTerm(id.term);
      }
      e := e.(domainLeader := id);
      if id.node != self {
        e := e.(domainRole := Follower);
      }
      return true;
    }

    method TransitionObserveHigherGlobalTerm(term: nat) returns (changed: bool)
      modifies this
      ensures e == ObserveGlobalTerm(old(e), term) && changed == (term > old(e).globalTerm)
    {
      if term <= e.globalTerm {
        return false;
      }
      e := e.(globalTerm := term);
      e := e.(globalVote := NO_DOMAIN_LEADER);
      e := e.(globalLeader := NO_GLOBAL_LEADER);
      e := e.(globalRole := Follower);
      if e.stage == Serving {
        e := e.(stage := GlobalElecting);
      }
      return true;
    }

    method TransitionStartGlobalCampaign(candidate: DomainIdentity, summary: LogSummary)
      returns (term: nat, log: LogSummary)
      modifies this
      ensures e == StartGlobalCampaign(old(e), candidate) && term == e.globalTerm && log == summary
    {
      e := e.(globalRole := Candidate);
      e := e.(globalTerm := e.globalTerm + 1);
      e := e.(globalVote := candidate);
      e := e.(globalLeader := NO_GLOBAL_LEADER);
      return e.globalTerm, summary;
    }

    method TransitionGlobalVote(own: LogSummary, r: GlobalVoteRequest) returns (term: nat, granted: bool, higher: bool)
      modifies this
      ensures e == GlobalVoted(old(e), own, r)
      ensures granted == GrantsGlobal(old(e), own, r) && term == e.globalTerm
      ensures higher == (r.term > old(e).globalTerm)
    {
      if r.term < e.globalTerm {
        return e.globalTerm, false, false;
      }
      higher := false;
      if r.term > e.globalTerm {
        var _ := TransitionObserveHigherGlobalTerm(r.term);
        higher := true;
      }
      granted := (!e.globalVote.Valid() || e.globalVote == r.candidate) && r.log.AtLeast(own);
      if granted {
        e := e.(globalVote := r.candidate);
      }
      term := e.globalTerm;
    }

    method TransitionAcceptGlobalLeader(self: string, id: GlobalIdentity) returns (accepted: bool)
      modifies this
      ensures e == AcceptGlobalLeader(old(e), self, id) && accepted == (id.term >= old(e).globalTerm)
    {
      if id.term < e.globalTerm {
        return false;
      }
      if id.term > e.globalTerm {
        var _ := TransitionObserveHigherGlobalTerm(id.term);
      }
      e := e.(globalLeader := id);
      if id.domainLeader.node != self {
        e := e.(globalRole := Follower);
      }
      e := e.(stage := Serving);
      return true;
    }
  }
}
