/** Quorum sizes of internal/cdraft/types.go and the intersections that both election tiers
    and the two-domain commit rule rely on. */
module Quorums {
  import opened Types

  function Majority(size: nat): nat {
    size / 2 + 1
  }

  /** Distinct Domain Leaders that must back a Global Leader. */
  function GlobalElectionThreshold(domains: nat): nat {
    if domains <= 1 then domains
    else if domains - 1 < Majority(domains) then Majority(domains)
    else domains - 1
  }

  /** A majority is the smallest number of which any two subsets must share a member: one member
      fewer leaves room for two that do not. */
  lemma MajorityIsLeast(size: nat)
    ensures Majority(size) + Majority(size) > size
    ensures Majority(size) >= 1 && (Majority(size) - 1) + (Majority(size) - 1) <= size
    ensures size > 0 ==> Majority(size) <= size
  {
  }

  /** All domains but one from three domains on, and every one of them below. */
  lemma ThresholdValues(domains: nat)
    ensures domains >= 3 ==> GlobalElectionThreshold(domains) == domains - 1
    ensures domains <= 2 ==> GlobalElectionThreshold(domains) == domains
    ensures domains >= 1 ==> GlobalElectionThreshold(domains) + GlobalElectionThreshold(domains) > domains
  {
  }

  lemma SubsetSize<T>(a: set<T>, b: set<T>)
    requires a <= b
    ensures |a| <= |b|
  {
    assert b == a + (b - a);
  }

  /** Two subsets that together outnumber the whole share an element. */
  lemma Overlap<T>(all: set<T>, a: set<T>, b: set<T>) returns (x: T)
    requires a <= all && b <= all
    requires |a| + |b| > |all|
    ensures x in a && x in b
  {
    if a * b == {} {
      assert |a + b| == |a| + |b|;
      SubsetSize(a + b, all);
      assert false;
    }
    x :| x in a * b;
  }

  lemma MajoritiesShare<T>(members: set<T>, a: set<T>, b: set<T>) returns (x: T)
    requires a <= members && b <= members
    requires |a| >= Majority(|members|) && |b| >= Majority(|members|)
    ensures x in a && x in b
  {
    x := Overlap(members, a, b);
  }

  /** Any two sets of backing domains that reach the threshold share a domain. */
  lemma ThresholdsShare<T>(domains: set<T>, a: set<T>, b: set<T>) returns (d: T)
    requires domains != {}
    requires a <= domains && b <= domains
    requires |a| >= GlobalElectionThreshold(|domains|) && |b| >= GlobalElectionThreshold(|domains|)
    ensures d in a && d in b
  {
    d := Overlap(domains, a, b);
  }

  /** A certificate that one log index is committed: a majority in each of two distinct domains. */
  ghost predicate CommitCertificate(members: map<string, set<string>>, holders: map<string, set<string>>,
                                    d1: string, d2: string)
  {
    && d1 != d2 && {d1, d2} <= members.Keys && {d1, d2} <= holders.Keys
    && (forall d :: d in {d1, d2} ==> holders[d] <= members[d] && |holders[d]| >= Majority(|members[d]|))
  }

  /** A certificate that `winner` became Global Leader: enough domains back it through their
      Domain Leader, every backing leader has a majority of its own domain behind it, and each
      vote on the way obeyed the up-to-date rule on the logs `summary`. */
  ghost predicate ElectionCertificate(members: map<string, set<string>>, backers: map<string, set<string>>,
                                      leader: map<string, string>, winner: string,
                                      summary: map<string, LogSummary>)
  {
    && backers.Keys <= members.Keys && backers.Keys == leader.Keys
    && |backers| >= GlobalElectionThreshold(|members|)
    && winner in summary
    && (forall d :: d in backers ==>
          && backers[d] <= members[d] && |backers[d]| >= Majority(|members[d]|)
          && leader[d] in summary && summary[winner].AtLeast(summary[leader[d]]))
    && (forall d, n :: d in backers && n in backers[d] ==> n in summary && summary[leader[d]].AtLeast(summary[n]))
  }

  /** Two-level quorum intersection: every commit certificate and every election certificate
      share a node, and the winner's log is at least as up to date as that node's. */
  lemma CommitMeetsElection(members: map<string, set<string>>, holders: map<string, set<string>>,
                            d1: string, d2: string, backers: map<string, set<string>>,
                            leader: map<string, string>, winner: string, summary: map<string, LogSummary>)
    returns (d: string, n: string)
    requires CommitCertificate(members, holders, d1, d2)
    requires ElectionCertificate(members, backers, leader, winner, summary)
    ensures d in {d1, d2} && d in backers && n in holders[d] && n in backers[d]
    ensures n in summary && summary[winner].AtLeast(summary[n])
  {
    SubsetSize({d1, d2}, members.Keys);
    assert |{d1, d2}| == 2;
    assert |backers.Keys| == |backers| && |members.Keys| == |members|;
    d := Overlap(members.Keys, {d1, d2}, backers.Keys);
    n := MajoritiesShare(members[d], holders[d], backers[d]);
    assert summary[leader[d]].AtLeast(summary[n]);
  }

  /** The threshold is the smallest that works once there are three domains: with one backing
      domain fewer, a commit certificate and the backing domains can be disjoint. */
  lemma ThresholdIsTight(domains: set<string>) returns (committed: set<string>, backing: set<string>)
    requires |domains| >= 3
    ensures committed <= domains && backing <= domains
    ensures |committed| == 2 && |backing| == GlobalElectionThreshold(|domains|) - 1
    ensures committed !! backing
  {
    var a :| a in domains;
    assert |domains - {a}| == |domains| - 1;
    var b :| b in domains - {a};
    committed, backing := {a, b}, domains - {a} - {b};
    assert |backing| == |domains| - 2;
  }
}
