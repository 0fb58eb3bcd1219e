/** The sequential domain election of internal/cdraft/sim/model.go: one campaign, one vote
    round with a counter over the members in their configured order, and the announcement to the
    domain. */
module SimElection {
  import opened Types
  import opened Quorums
  import opened Elections

  predicate VotedFor(nodes: map<string, Elector>, v: string, candidate: string, term: nat) {
    v in nodes && nodes[v].domainTerm == term && nodes[v].domainVote == candidate
  }

  /** Only members change, and no term decreases. */
  ghost predicate OnlyMembersMove(before: map<string, Elector>, after: map<string, Elector>, members: set<string>) {
    && after.Keys == before.Keys
    && (forall n :: n in after ==>
          after[n].domainTerm >= before[n].domainTerm && (n !in members ==> after[n] == before[n]))
  }

  ghost predicate AllVoted(nodes: map<string, Elector>, voters: set<string>, candidate: string, term: nat) {
    forall v :: v in voters ==> VotedFor(nodes, v, candidate, term)
  }

  ghost predicate Elects(nodes: map<string, Elector>, members: set<string>, voters: set<string>,
                         candidate: string, term: nat)
  {
    && voters <= members && |voters| >= Majority(|members|)
    && AllVoted(nodes, voters, candidate, term)
  }

  ghost predicate MajorityFor(nodes: map<string, Elector>, members: set<string>, candidate: string, term: nat) {
    exists voters :: Elects(nodes, members, voters, candidate, term)
  }

  /** Two elections cannot both leave a majority of the same members behind them in one term. */
  lemma OneMajority(nodes: map<string, Elector>, members: set<string>, a: string, b: string, term: nat)
    requires MajorityFor(nodes, members, a, term) && MajorityFor(nodes, members, b, term)
    ensures a == b
  {
    var va :| Elects(nodes, members, va, a, term);
    var vb :| Elects(nodes, members, vb, b, term);
    var v := MajoritiesShare(members, va, vb);
  }

  /** What one vote request does to a member: a stopped or booting node does not answer. */
  predicate Answers(nodes: map<string, Elector>, m: string, stopped: set<string>)
    requires m in nodes
  {
    m !in stopped && nodes[m].stage != Booting
  }

  predicate Grants(nodes: map<string, Elector>, m: string, stopped: set<string>, own: LogSummary, r: DomainVoteRequest)
    requires m in nodes
  {
    Answers(nodes, m, stopped) && GrantsDomain(nodes[m], own, r)
  }

  function AfterVote(nodes: map<string, Elector>, m: string, stopped: set<string>, own: LogSummary,
                     r: DomainVoteRequest): Elector
    requires m in nodes
  {
    if Answers(nodes, m, stopped) then DomainVoted(nodes[m], own, r) else nodes[m]
  }

  /** A stopped or booting node grants nothing and stays as it is; any other enters a later term it is
      asked from, and grants as the vote rule says. */
  lemma WhoAnswers(nodes: map<string, Elector>, m: string, stopped: set<string>, own: LogSummary, r: DomainVoteRequest)
    requires m in nodes
    ensures m in stopped || nodes[m].stage == Booting ==>
              !Grants(nodes, m, stopped, own, r) && AfterVote(nodes, m, stopped, own, r) == nodes[m]
    ensures m !in stopped && nodes[m].stage != Booting ==>
              && (Grants(nodes, m, stopped, own, r) <==> GrantsDomain(nodes[m], own, r))
              && AfterVote(nodes, m, stopped, own, r).domainTerm == Max(nodes[m].domainTerm, r.term)
  {
  }

  /** The members other than the candidate that grant the request. */
  function Granting(nodes: map<string, Elector>, asked: set<string>, stopped: set<string>,
                    logs: map<string, LogSummary>, r: DomainVoteRequest): set<string>
    requires asked <= nodes.Keys && asked <= logs.Keys
  {
    set m | m in asked && Grants(nodes, m, stopped, logs[m], r)
  }

  /** Some asked member answers from a term later than the request's. */
  ghost predicate Overtaken(nodes: map<string, Elector>, asked: set<string>, stopped: set<string>, term: nat)
    requires asked <= nodes.Keys
  {
    exists m :: m in asked && Answers(nodes, m, stopped) && nodes[m].domainTerm > term
  }

  /** The nodes after the members `asked` have received the request. */
  function AfterRound(nodes: map<string, Elector>, asked: set<string>, stopped: set<string>,
                      logs: map<string, LogSummary>, r: DomainVoteRequest): map<string, Elector>
    requires asked <= nodes.Keys && asked <= logs.Keys
  {
    map n | n in nodes :: if n in asked then AfterVote(nodes, n, stopped, logs[n], r) else nodes[n]
  }

  lemma AskOne(nodes: map<string, Elector>, done: set<string>, m: string, stopped: set<string>,
               logs: map<string, LogSummary>, r: DomainVoteRequest)
    requires done + {m} <= nodes.Keys && done + {m} <= logs.Keys && m !in done
    ensures var after := AfterRound(nodes, done, stopped, logs, r);
            && after[m] == nodes[m]
            && AfterRound(nodes, done + {m}, stopped, logs, r) == after[m := AfterVote(nodes, m, stopped, logs[m], r)]
    ensures var granted := Granting(nodes, done, stopped, logs, r);
            Granting(nodes, done + {m}, stopped, logs, r) ==
            (if Grants(nodes, m, stopped, logs[m], r) then granted + {m} else granted) && m !in granted
    ensures Overtaken(nodes, done + {m}, stopped, r.term) <==>
            Overtaken(nodes, done, stopped, r.term) ||
            (Answers(nodes, m, stopped) && AfterVote(nodes, m, stopped, logs[m], r).domainTerm > r.term)
  {
  }

  /** The candidate steps down to a later term it learned of. */
  lemma StepDownMoves(before: map<string, Elector>, mid: map<string, Elector>, asked: set<string>,
                      candidate: string, term: nat)
    requires OnlyMembersMove(before, mid, asked) && candidate in mid
    ensures OnlyMembersMove(before, mid[candidate := ObserveDomainTerm(mid[candidate], term)], asked + {candidate})
  {
  }

  lemma MoveFewer(before: map<string, Elector>, after: map<string, Elector>, some: set<string>, all: set<string>)
    requires OnlyMembersMove(before, after, some) && some <= all
    ensures OnlyMembersMove(before, after, all)
  {
  }

  /** A member that grants holds a vote for the candidate afterwards, and no term decreases. */
  lemma RoundBinds(nodes: map<string, Elector>, asked: set<string>, stopped: set<string>,
                   logs: map<string, LogSummary>, r: DomainVoteRequest)
    requires asked <= nodes.Keys && asked <= logs.Keys
    ensures var after := AfterRound(nodes, asked, stopped, logs, r);
            && OnlyMembersMove(nodes, after, asked)
            && AllVoted(after, Granting(nodes, asked, stopped, logs, r), r.candidate, r.term)
  {
  }

  lemma MoveMore(before: map<string, Elector>, mid: map<string, Elector>, after: map<string, Elector>,
                 members: set<string>)
    requires OnlyMembersMove(before, mid, members) && OnlyMembersMove(mid, after, members)
    ensures OnlyMembersMove(before, after, members)
  {
  }

  /** With enough grants the candidate is elected by those who granted and itself. */
  lemma Elected(nodes: map<string, Elector>, members: set<string>, asked: set<string>, stopped: set<string>,
                logs: map<string, LogSummary>, r: DomainVoteRequest) returns (voters: set<string>)
    requires asked <= members <= nodes.Keys && asked <= logs.Keys && r.candidate in members - asked
    requires VotedFor(nodes, r.candidate, r.candidate, r.term)
    requires |Granting(nodes, asked, stopped, logs, r)| + 1 >= Majority(|members|)
    ensures Elects(AfterRound(nodes, asked, stopped, logs, r), members, voters, r.candidate, r.term)
  {
    RoundBinds(nodes, asked, stopped, logs, r);
    voters := Granting(nodes, asked, stopped, logs, r) + {r.candidate};
  }

  /** Starting a campaign changes only the candidate, so what the others answer is unaffected. */
  lemma CampaignUnseen(nodes: map<string, Elector>, asked: set<string>, candidate: string, e: Elector,
                       stopped: set<string>, logs: map<string, LogSummary>, r: DomainVoteRequest)
    requires asked <= nodes.Keys && asked <= logs.Keys && candidate !in asked
    ensures var start := nodes[candidate := e];
            && Granting(start, asked, stopped, logs, r) == Granting(nodes, asked, stopped, logs, r)
            && (Overtaken(start, asked, stopped, r.term) <==> Overtaken(nodes, asked, stopped, r.term))
  {
    var start := nodes[candidate := e];
    forall m | m in asked ensures start[m] == nodes[m] {
    }
    assert forall m :: m in asked ==> Answers(start, m, stopped) == Answers(nodes, m, stopped);
    assert Granting(start, asked, stopped, logs, r) == Granting(nodes, asked, stopped, logs, r);
  }

  // ------------------------------------------------------------- configured order

  predicate Distinct(members: seq<string>) {
    forall i, j :: 0 <= i < j < |members| ==> members[i] != members[j]
  }

  function SetOf(members: seq<string>): set<string> {
    set m | m in members
  }

  lemma {:induction false} SetOfSize(members: seq<string>)
    requires Distinct(members)
    ensures |SetOf(members)| == |members|
  {
    if members != [] {
      var n := |members| - 1;
      SetOfSize(members[..n]);
      assert members == members[..n] + [members[n]];
      assert SetOf(members) == SetOf(members[..n]) + {members[n]};
    }
  }

  /** The members the candidate sends its request to. */
  function AskedIn(members: seq<string>, candidate: string, reach: set<string>): set<string> {
    set m | m in members && m != candidate && m in reach
  }

  lemma AskedNext(members: seq<string>, candidate: string, reach: set<string>, k: nat)
    requires Distinct(members) && k < |members|
    ensures var m, done := members[k], AskedIn(members[..k], candidate, reach);
            && m !in done
            && AskedIn(members[..k + 1], candidate, reach) == if m != candidate && m in reach then done + {m} else done
  {
    assert members[..k + 1] == members[..k] + [members[k]];
  }

  /** The k-th member is the first of those asked that answers from a later term. */
  ghost predicate FirstAhead(nodes: map<string, Elector>, members: seq<string>, candidate: string, reach: set<string>,
                             stopped: set<string>, term: nat, k: nat)
    requires SetOf(members) <= nodes.Keys
  {
    && k < |members| && members[k] != candidate && members[k] in reach
    && Answers(nodes, members[k], stopped) && nodes[members[k]].domainTerm > term
    && !Overtaken(nodes, AskedIn(members[..k], candidate, reach), stopped, term)
  }

  /** The nodes when the round stops at the k-th member: everybody asked so far has voted, and the
      candidate has stepped down to that member's term. */
  function StoppedAt(nodes: map<string, Elector>, members: seq<string>, reach: set<string>, stopped: set<string>,
                     logs: map<string, LogSummary>, r: DomainVoteRequest, k: nat): map<string, Elector>
    requires k < |members| && SetOf(members) <= nodes.Keys && SetOf(members) <= logs.Keys && r.candidate in nodes
  {
    var asked := AskedIn(members[..k + 1], r.candidate, reach);
    AfterRound(nodes, asked, stopped, logs, r)
      [r.candidate := ObserveDomainTerm(nodes[r.candidate], nodes[members[k]].domainTerm)]
  }

  /** The round stops at a member that is ahead of the request when nobody before it was. */
  lemma StopsHere(nodes: map<string, Elector>, members: seq<string>, reach: set<string>, stopped: set<string>,
                  logs: map<string, LogSummary>, r: DomainVoteRequest, k: nat)
    requires Distinct(members) && SetOf(members) <= nodes.Keys && SetOf(members) <= logs.Keys && r.candidate in nodes
    requires k < |members| && members[k] != r.candidate && members[k] in reach
    requires !Overtaken(nodes, AskedIn(members[..k], r.candidate, reach), stopped, r.term)
    requires Answers(nodes, members[k], stopped)
    requires AfterVote(nodes, members[k], stopped, logs[members[k]], r).domainTerm > r.term
    ensures FirstAhead(nodes, members, r.candidate, reach, stopped, r.term, k)
    ensures Overtaken(nodes, AskedIn(members, r.candidate, reach), stopped, r.term)
    ensures var m, asked := members[k], AskedIn(members[..k], r.candidate, reach) + {members[k]};
            var term := AfterVote(nodes, m, stopped, logs[m], r).domainTerm;
            StoppedAt(nodes, members, reach, stopped, logs, r, k) ==
            AfterRound(nodes, asked, stopped, logs, r)[r.candidate := ObserveDomainTerm(nodes[r.candidate], term)]
  {
    AskedNext(members, r.candidate, reach, k);
    assert members[k] in AskedIn(members, r.candidate, reach);
  }

  class Cluster {
    var nodes: map<string, Elector>
    var domainLeaders: map<string, DomainIdentity>
    var globalLeader: GlobalIdentity

    /** handleDomainVoteLocked. */
    method HandleDomainVote(voter: string, stopped: set<string>, own: LogSummary, r: DomainVoteRequest)
      returns (term: nat, granted: bool)
      requires voter in nodes
      modifies this`nodes
      ensures nodes == old(nodes)[voter := AfterVote(old(nodes), voter, stopped, own, r)]
      ensures granted <==> Grants(old(nodes), voter, stopped, own, r)
      ensures term == if Answers(old(nodes), voter, stopped) then nodes[voter].domainTerm else 0
    {
      var e := nodes[voter];
      if voter in stopped || e.stage == Booting {
        return 0, false;
      }
      if r.term < e.domainTerm {
        return e.domainTerm, false;
      }
      nodes := nodes[voter := DomainVoted(e, own, r)];
      term, granted := nodes[voter].domainTerm, GrantsDomain(e, own, r);
    }

    /** The vote round. It stops exactly when some member answers from a later term, at the first
        such member; otherwise every asked member has voted, and the count is the candidate plus
        the members that grant. */
    method CollectVotes(members: seq<string>, stopped: set<string>, logs: map<string, LogSummary>,
                        reach: set<string>, request: DomainVoteRequest)
      returns (votes: Option<nat>, ghost stop: nat)
      requires Distinct(members) && SetOf(members) <= nodes.Keys && SetOf(members) <= logs.Keys
      requires request.candidate in nodes && nodes[request.candidate].domainTerm == request.term
      modifies this`nodes
      ensures var asked := AskedIn(members, request.candidate, reach);
              && (votes.None? <==> Overtaken(old(nodes), asked, stopped, request.term))
              && (votes.None? ==>
                    && FirstAhead(old(nodes), members, request.candidate, reach, stopped, request.term, stop)
                    && nodes == StoppedAt(old(nodes), members, reach, stopped, logs, request, stop))
              && (votes.Some? ==>
                    && nodes == AfterRound(old(nodes), asked, stopped, logs, request)
                    && votes.value == |Granting(old(nodes), asked, stopped, logs, request)| + 1)
    {
      var candidate := request.candidate;
      ghost var start := nodes;
      var count := 1;
      var k := 0;
      ghost var done: set<string> := {};
      while k < |members|
        invariant 0 <= k <= |members| && done == AskedIn(members[..k], candidate, reach)
        invariant nodes == AfterRound(start, done, stopped, logs, request)
        invariant !Overtaken(start, done, stopped, request.term)
        invariant count == |Granting(start, done, stopped, logs, request)| + 1
      {
        var m := members[k];
        AskedNext(members, candidate, reach, k);
        if m != candidate && m in reach {
          AskOne(start, done, m, stopped, logs, request);
          var term, granted := HandleDomainVote(m, stopped, logs[m], request);
          assert nodes == AfterRound(start, done + {m}, stopped, logs, request);
          assert term > request.term <==> Overtaken(start, done + {m}, stopped, request.term);
          if term > nodes[candidate].domainTerm {
            StopsHere(start, members, reach, stopped, logs, request, k);
            nodes := nodes[candidate := ObserveDomainTerm(nodes[candidate], term)];
            return None, k;
          }
          if granted {
            count := count + 1;
          }
          done := done + {m};
        }
        k := k + 1;
      }
      assert members[..k] == members;
      votes, stop := Some(count), 0;
    }

    /** The announcement loop: every member that hears of a leader of no earlier term than its
        own follows it; nobody else changes. */
    method Announce(members: set<string>, id: DomainIdentity, reach: set<string>)
      requires members <= nodes.Keys
      modifies this`nodes
      ensures nodes == map n | n in old(nodes) :: Heard(old(nodes)[n], n, n in members && n in reach, id)
    {
      var todo := members;
      while todo != {}
        invariant todo <= members && nodes.Keys == old(nodes).Keys
        invariant forall n :: n in nodes ==>
                                nodes[n] == Heard(old(nodes)[n], n, n in members - todo && n in reach, id)
        decreases |todo|
      {
        var m :| m in todo;
        todo := todo - {m};
        if m in reach && id.term >= nodes[m].domainTerm {
          nodes := nodes[m := AcceptDomainLeader(nodes[m], m, id).(stage := GlobalElecting)];
        }
      }
    }

    /** The campaign and its vote round, for a candidate that may campaign. `saved` says whether the
        save of the campaign succeeds; without it nobody is asked. */
    method Campaign(members: seq<string>, candidate: string, stopped: set<string>,
                    logs: map<string, LogSummary>, reach: set<string>, saved: bool)
      returns (won: bool, ghost voters: set<string>)
      requires Distinct(members) && SetOf(members) <= nodes.Keys && SetOf(members) <= logs.Keys
      requires candidate in members && Answers(nodes, candidate, stopped)
      modifies this`nodes
      ensures OnlyMembersMove(old(nodes), nodes, SetOf(members))
      ensures won <==> saved && Wins(old(nodes), members, candidate, stopped, logs, reach)
      ensures won ==> Elects(nodes, SetOf(members), voters, candidate, old(nodes)[candidate].domainTerm + 1)
      ensures won ==> nodes[candidate].domainTerm == old(nodes)[candidate].domainTerm + 1
      ensures won ==> NoneBeyond(old(nodes), nodes, old(nodes)[candidate].domainTerm + 1)
      ensures !saved ==> nodes == old(nodes)[candidate := Campaigning(old(nodes)[candidate], candidate)]
    {
      var campaigning := Campaigning(nodes[candidate], candidate);
      nodes := nodes[candidate := campaigning];
      ghost var start := nodes;
      assert OnlyMembersMove(old(nodes), start, SetOf(members));
      if !saved {
        return false, {};
      }
      var request := DomainVoteRequest(candidate, campaigning.domainTerm, logs[candidate]);
      ghost var asked := AskedIn(members, candidate, reach);
      CampaignUnseen(old(nodes), asked, candidate, campaigning, stopped, logs, request);
      var votes, stop := CollectVotes(members, stopped, logs, reach, request);
      RoundMoves(start, members, reach, stopped, logs, request, stop);
      MoveMore(old(nodes), start, nodes, SetOf(members));
      SetOfSize(members);
      won, voters := votes.Some? && votes.value >= Majority(|members|), {};
      if won {
        voters := Elected(start, SetOf(members), asked, stopped, logs, request);
        RoundTerms(start, asked, stopped, logs, request);
      }
    }

    /** electDomainLeaderLocked: it succeeds if and only if the candidate may campaign, its campaign is
        saved, no member it reaches answers from a later term, and with its own vote the grants
        reach a majority. A success leaves a majority of the members holding, in the candidate's
        new term, a vote for the candidate, who is recorded as leader of that term; when it
        replaces another valid leader of the domain, the recorded Global Leader is dropped and
        every node gives up its global role. A failure records nothing. No term decreases, and
        other domains change in no other way. */
    method ElectDomainLeader(domain: string, members: seq<string>, candidate: string, stopped: set<string>,
                             logs: map<string, LogSummary>, voteReach: set<string>, readyReach: set<string>,
                             saved: bool)
      returns (r: Option<DomainIdentity>)
      requires Distinct(members) && SetOf(members) <= nodes.Keys && SetOf(members) <= logs.Keys
      modifies this
      ensures r.Some? <==> saved && Wins(old(nodes), members, candidate, stopped, logs, voteReach)
      ensures r.None? ==> domainLeaders == old(domainLeaders) && globalLeader == old(globalLeader)
      ensures r.None? ==> OnlyMembersMove(old(nodes), nodes, SetOf(members))
      ensures r.Some? ==>
                && candidate in members
                && r.value == DomainIdentity(domain, candidate, old(nodes)[candidate].domainTerm + 1)
                && domainLeaders == old(domainLeaders)[domain := r.value]
                && candidate in nodes && nodes[candidate].domainRole == Leader
                && nodes[candidate].domainLeader == r.value
                && WinnerFollowed(old(nodes), nodes, SetOf(members) * readyReach, r.value)
                && MajorityFor(nodes, SetOf(members), candidate, r.value.term)
                && var drops := Replaces(old(domainLeaders), domain, r.value);
                   && globalLeader == (if drops then NO_GLOBAL_LEADER else old(globalLeader))
                   && MembersMove(old(nodes), nodes, SetOf(members), drops)
    {
      if candidate !in members || candidate in stopped || nodes[candidate].stage == Booting {
        return None;
      }
      var won, voters := Campaign(members, candidate, stopped, logs, voteReach, saved);
      if !won {
        return None;
      }
      var identity := DomainIdentity(domain, candidate, nodes[candidate].domainTerm);
      var drops := Replaces(domainLeaders, domain, identity);
      domainLeaders := domainLeaders[domain := identity];
      ghost var counted := nodes;
      voters := AnnounceLeader(SetOf(members), identity, readyReach, voters);
      MoveMore(old(nodes), counted, nodes, SetOf(members));
      if drops {
        DropGlobalLeader();
      }
      assert Elects(nodes, SetOf(members), voters, candidate, identity.term);
      return Some(identity);
    }

    /** invalidateGlobalLeaderLocked. */
    method DropGlobalLeader()
      modifies this`nodes, this`globalLeader
      ensures globalLeader == NO_GLOBAL_LEADER
      ensures nodes == map n | n in old(nodes) :: RevokeGlobal(old(nodes)[n])
    {
      globalLeader := NO_GLOBAL_LEADER;
      var todo := nodes.Keys;
      while todo != {}
        invariant globalLeader == NO_GLOBAL_LEADER && todo <= nodes.Keys == old(nodes).Keys
        invariant forall n :: n in nodes ==>
                                nodes[n] == if n in todo then old(nodes)[n] else RevokeGlobal(old(nodes)[n])
        decreases |todo|
      {
        var n :| n in todo;
        todo := todo - {n};
        nodes := nodes[n := RevokeGlobal(nodes[n])];
      }
    }

    /** The end of a won election: announce the leader and make the candidate lead. */
    method AnnounceLeader(members: set<string>, id: DomainIdentity, reach: set<string>, ghost voters: set<string>)
      returns (ghost behind: set<string>)
      requires members <= nodes.Keys && id.node in members
      requires nodes[id.node].domainTerm == id.term
      requires Elects(nodes, members, voters, id.node, id.term)
      modifies this`nodes
      ensures OnlyMembersMove(old(nodes), nodes, members)
      ensures nodes[id.node].domainRole == Leader && nodes[id.node].domainLeader == id
      ensures behind == voters && Elects(nodes, members, behind, id.node, id.term)
      ensures WinnerFollowed(old(nodes), nodes, members * reach, id)
    {
      Announce(members, id, reach);
      nodes := nodes[id.node := BecomeDomainLeader(nodes[id.node], id).(stage := GlobalElecting)];
      behind := voters;
    }
  }

  /** No node that was not beyond the term has gone beyond it. */
  ghost predicate NoneBeyond(before: map<string, Elector>, after: map<string, Elector>, term: nat) {
    after.Keys == before.Keys && forall n :: n in after && before[n].domainTerm <= term ==> after[n].domainTerm <= term
  }

  lemma RoundTerms(nodes: map<string, Elector>, asked: set<string>, stopped: set<string>,
                   logs: map<string, LogSummary>, r: DomainVoteRequest)
    requires asked <= nodes.Keys && asked <= logs.Keys
    ensures NoneBeyond(nodes, AfterRound(nodes, asked, stopped, logs, r), r.term)
  {
  }

  /** Everybody who heard the winner, and was in no later term, is in its term, follows it, and leads
      the domain only if it is the winner. */
  ghost predicate WinnerFollowed(before: map<string, Elector>, after: map<string, Elector>, hearers: set<string>,
                                id: DomainIdentity)
  {
    forall n :: n in hearers && n in before && n in after && before[n].domainTerm <= id.term ==>
      && after[n].domainTerm == id.term && after[n].domainLeader == id
      && (n != id.node ==> after[n].domainRole == Follower)
  }

  function Campaigning(e: Elector, self: string): Elector {
    StartDomainCampaign(e.(stage := DomainElecting), self)
  }

  /** The domain had another valid leader on record. */
  predicate Replaces(leaders: map<string, DomainIdentity>, domain: string, id: DomainIdentity) {
    domain in leaders && leaders[domain].Valid() && leaders[domain] != id
  }

  /** No term decreases; outside the domain nothing changes but the global role, and that only when
      it is dropped everywhere. */
  ghost predicate MembersMove(before: map<string, Elector>, after: map<string, Elector>, members: set<string>,
                              drops: bool)
  {
    && after.Keys == before.Keys
    && (forall n :: n in after ==>
          && after[n].domainTerm >= before[n].domainTerm
          && (n !in members ==> after[n] == if drops then RevokeGlobal(before[n]) else before[n])
          && (drops ==> after[n].globalRole == Follower && after[n].globalLeader == NO_GLOBAL_LEADER))
  }

  /** Wherever the round stops, only members have moved. */
  lemma RoundMoves(nodes: map<string, Elector>, members: seq<string>, reach: set<string>, stopped: set<string>,
                   logs: map<string, LogSummary>, r: DomainVoteRequest, k: nat)
    requires SetOf(members) <= nodes.Keys && SetOf(members) <= logs.Keys && r.candidate in members
    ensures var asked := AskedIn(members, r.candidate, reach);
            OnlyMembersMove(nodes, AfterRound(nodes, asked, stopped, logs, r), SetOf(members))
    ensures k < |members| ==>
              OnlyMembersMove(nodes, StoppedAt(nodes, members, reach, stopped, logs, r, k), SetOf(members))
  {
    var all := AskedIn(members, r.candidate, reach);
    RoundBinds(nodes, all, stopped, logs, r);
    MoveFewer(nodes, AfterRound(nodes, all, stopped, logs, r), all, SetOf(members));
    if k < |members| {
      var some := AskedIn(members[..k + 1], r.candidate, reach);
      var mid := AfterRound(nodes, some, stopped, logs, r);
      RoundBinds(nodes, some, stopped, logs, r);
      StepDownMoves(nodes, mid, some, r.candidate, nodes[members[k]].domainTerm);
      assert mid[r.candidate] == nodes[r.candidate];
      MoveFewer(nodes, StoppedAt(nodes, members, reach, stopped, logs, r, k), some + {r.candidate}, SetOf(members));
    }
  }

  function Heard(e: Elector, self: string, hears: bool, id: DomainIdentity): Elector {
    if hears && id.term >= e.domainTerm then AcceptDomainLeader(e, self, id).(stage := GlobalElecting) else e
  }

  /** What it takes to be elected, in terms of the nodes before the campaign. */
  ghost predicate Wins(nodes: map<string, Elector>, members: seq<string>, candidate: string, stopped: set<string>,
                       logs: map<string, LogSummary>, reach: set<string>)
    requires SetOf(members) <= nodes.Keys && SetOf(members) <= logs.Keys
  {
    && candidate in members && candidate !in stopped && nodes[candidate].stage != Booting
    && var request := DomainVoteRequest(candidate, nodes[candidate].domainTerm + 1, logs[candidate]);
       var asked := AskedIn(members, candidate, reach);
       && !Overtaken(nodes, asked, stopped, request.term)
       && |Granting(nodes, asked, stopped, logs, request)| + 1 >= Majority(|members|)
  }
}
