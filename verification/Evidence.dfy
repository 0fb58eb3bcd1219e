/** The two certificates of internal/cdraft/rpc_node.go, read off the logs of a cluster state: a
    history held by majorities of two domains, and a Global Leader backed through up-to-date
    votes. */
module Evidence {
  import opened Types
  import opened Quorums
  import opened NodeLog
  import opened Cluster

  predicate Within(members: map<string, set<string>>, c: System) {
    forall d :: d in members ==> members[d] <= c.nodes.Keys
  }

  function HoldersIn(c: System, members: map<string, set<string>>, h: History): map<string, set<string>>
    requires Within(members, c)
  {
    map d | d in members :: Holders(c.nodes, members[d], h)
  }

  /** Majorities of the domains d1 and d2 hold h: what a commit is announced with. */
  ghost predicate Certified(c: System, members: map<string, set<string>>, h: History, d1: string, d2: string) {
    Within(members, c) && CommitCertificate(members, HoldersIn(c, members, h), d1, d2)
  }

  function Summaries(c: System): map<string, LogSummary> {
    map n | n in c.nodes :: SummaryOf(c.nodes[n].hist)
  }

  /** On the logs of c, `winner` gathers the backing of enough Domain Leaders, each of them up to
      date within a majority of its own domain. */
  ghost predicate Electable(c: System, members: map<string, set<string>>, backers: map<string, set<string>>,
                            leader: map<string, string>, winner: string)
  {
    ElectionCertificate(members, backers, leader, winner, Summaries(c))
  }

  /** What the two rules together exclude: a Global Leader elected while a history is certified is
      at least as up to date as some node that holds it. So its own log reaches as far, or ends in
      a later term than that node's. */
  lemma WinnerMeetsHolder(c: System, members: map<string, set<string>>, h: History, d1: string, d2: string,
                          backers: map<string, set<string>>, leader: map<string, string>, winner: string)
    returns (n: string)
    requires Certified(c, members, h, d1, d2) && Electable(c, members, backers, leader, winner)
    ensures n in c.nodes && winner in c.nodes
    ensures |h| <= |c.nodes[n].hist| && c.nodes[n].hist[..|h|] == h
    ensures var own, held := SummaryOf(c.nodes[winner].hist), SummaryOf(c.nodes[n].hist);
            own.AtLeast(held) && (own.lastTerm > held.lastTerm || |c.nodes[winner].hist| >= |h|)
  {
    var d;
    d, n := CommitMeetsElection(members, HoldersIn(c, members, h), d1, d2, backers, leader, winner, Summaries(c));
  }
}
