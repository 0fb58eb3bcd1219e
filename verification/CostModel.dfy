/** The paper cost model (internal/optimizer/optimizer.go:16-226) over exact reals: the cost of
    each candidate domain, and the recommendation. */
module CostModel {
  import opened Types
  import opened Orders

  datatype Data = Data(
    writeCounts: map<string, real>,
    readCounts: map<string, real>,
    available: map<string, bool>,
    oneWayMillis: map<string, map<string, real>>)

  datatype Input = Input(domains: seq<string>, consensus: seq<string>, floating: seq<string>, data: Data)

  datatype Ranking = Ranking(domain: string, ls: real, canCommit: bool)

  datatype Result = Result(candidates: seq<Ranking>, recommended: string, recommendedLs: real)

  function Count(m: map<string, real>, d: string): real {
    if d in m then m[d] else 0.0
  }

  predicate Up(x: Data, d: string) {
    d in x.available && x.available[d]
  }

  function OneWay(x: Data, from: string, to: string): Option<real> {
    if from == to then Some(0.0)
    else if from in x.oneWayMillis && to in x.oneWayMillis[from] then Some(x.oneWayMillis[from][to])
    else None
  }

  // ------------------------------------------------------------- commit partner

  /** Domain j can complete a two-domain commit with z. */
  predicate Partner(x: Data, z: string, j: string) {
    j != z && Up(x, j) && OneWay(x, z, j).Some?
  }

  /** The cheapest partner among the first n domains. */
  function Nearest(x: Data, domains: seq<string>, z: string, n: nat): Option<real>
    requires n <= |domains|
  {
    if n == 0 then None
    else
      var best := Nearest(x, domains, z, n - 1);
      var j := domains[n - 1];
      if Partner(x, z, j) && (best.None? || OneWay(x, z, j).value < best.value) then OneWay(x, z, j) else best
  }

  /** minToOtherAvailableIn is the true minimum: attained by a partner and below every other;
      absent exactly when no partner exists. */
  lemma {:induction false} NearestIsMinimum(x: Data, domains: seq<string>, z: string, n: nat)
    requires n <= |domains|
    ensures var best := Nearest(x, domains, z, n);
            && (best.None? <==> forall k :: 0 <= k < n ==> !Partner(x, z, domains[k]))
            && (best.Some? ==>
                  && (exists k :: 0 <= k < n && Partner(x, z, domains[k]) && OneWay(x, z, domains[k]) == best)
                  && (forall k :: 0 <= k < n && Partner(x, z, domains[k]) ==>
                                    best.value <= OneWay(x, z, domains[k]).value))
  {
    if n > 0 {
      NearestIsMinimum(x, domains, z, n - 1);
      assert Partner(x, z, domains[n - 1]) || !Partner(x, z, domains[n - 1]);
    }
  }

  method MinToOtherAvailable(x: Data, domains: seq<string>, z: string) returns (r: Option<real>)
    ensures r == Nearest(x, domains, z, |domains|)
  {
    var best := 0.0;
    var found := false;
    for k := 0 to |domains|
      invariant Nearest(x, domains, z, k) == if found then Some(best) else None
    {
      var j := domains[k];
      if j == z || !Up(x, j) {
        continue;
      }
      var l := OneWay(x, z, j);
      if l.None? {
        continue;
      }
      if !found || l.value < best {
        best, found := l.value, true;
      }
    }
    return if found then Some(best) else None;
  }

  // ------------------------------------------------------------- floating demand

  function TripCost(out: real, over: real, back: real, w: real): real {
    (out + over + back) * w
  }

  /** Cost of w writes answered over u -> z -> responder -> u, when every leg is known. */
  function RelayCost(x: Data, u: string, z: string, luz: real, w: real, responder: string): Option<real> {
    if responder == z || !Up(x, responder) || OneWay(x, z, responder).None? then None
    else
      var back := if OneWay(x, responder, u).Some? then OneWay(x, responder, u) else OneWay(x, u, responder);
      if back.None? then None else Some(TripCost(luz, OneWay(x, z, responder).value, back.value, w))
  }

  function BestWrite(x: Data, domains: seq<string>, u: string, z: string, luz: real, w: real, direct: real, n: nat)
    : real
    requires n <= |domains|
  {
    if n == 0 then direct
    else
      var best := BestWrite(x, domains, u, z, luz, w, direct, n - 1);
      var relay := RelayCost(x, u, z, luz, w, domains[n - 1]);
      if relay.Some? && relay.value < best then relay.value else best
  }

  /** Writes answered by the leader itself: u -> z, z -> its commit partner, and back. */
  function DirectWrite(luz: real, minZJ: real, w: real): real {
    2.0 * (luz + minZJ) * w
  }

  function ReadRoundTrips(luz: real, r: real): real {
    2.0 * luz * r
  }

  function FloatingCost(x: Data, domains: seq<string>, u: string, z: string, minZJ: real): real {
    var luz, w := OneWay(x, u, z), Count(x.writeCounts, u);
    if luz.None? then 0.0
    else
      var direct := DirectWrite(luz.value, minZJ, w);
      ReadRoundTrips(luz.value, Count(x.readCounts, u)) +
      BestWrite(x, domains, u, z, luz.value, w, direct, |domains|)
  }

  /** The write part is the minimum of the direct path and every known relay. */
  lemma {:induction false} BestWriteIsMinimum(x: Data, domains: seq<string>, u: string, z: string,
                                              luz: real, w: real, direct: real, n: nat)
    requires n <= |domains|
    ensures var best := BestWrite(x, domains, u, z, luz, w, direct, n);
            && best <= direct
            && (forall k :: 0 <= k < n && RelayCost(x, u, z, luz, w, domains[k]).Some? ==>
                              best <= RelayCost(x, u, z, luz, w, domains[k]).value)
            && (best == direct || (exists k :: 0 <= k < n && RelayCost(x, u, z, luz, w, domains[k]) == Some(best)))
  {
    if n > 0 {
      BestWriteIsMinimum(x, domains, u, z, luz, w, direct, n - 1);
    }
  }

  method ComputeFloatingCost(x: Data, domains: seq<string>, u: string, z: string, minZJ: real) returns (r: real)
    ensures r == FloatingCost(x, domains, u, z, minZJ)
  {
    var luz := OneWay(x, u, z);
    if luz.None? {
      return 0.0;
    }
    var readCost := ReadRoundTrips(luz.value, Count(x.readCounts, u));
    var directWrite := DirectWrite(luz.value, minZJ, Count(x.writeCounts, u));
    var bestWrite := CheapestWrite(x, domains, u, z, luz.value, Count(x.writeCounts, u), directWrite);
    return readCost + bestWrite;
  }

  /** The responder loop of floatingCost. */
  method CheapestWrite(x: Data, domains: seq<string>, u: string, z: string, luz: real, w: real, direct: real)
    returns (bestWrite: real)
    ensures bestWrite == BestWrite(x, domains, u, z, luz, w, direct, |domains|)
  {
    bestWrite := direct;
    for k := 0 to |domains|
      invariant bestWrite == BestWrite(x, domains, u, z, luz, w, direct, k)
    {
      var responder := domains[k];
      if responder == z || !Up(x, responder) {
        continue;
      }
      var lzr := OneWay(x, z, responder);
      if lzr.None? {
        continue;
      }
      var lru := OneWay(x, responder, u);
      if lru.None? {
        lru := OneWay(x, u, responder);
      }
      if lru.None? {
        continue;
      }
      var relay := TripCost(luz, lzr.value, lru.value, w);
      if relay < bestWrite {
        bestWrite := relay;
      }
    }
  }

  // ------------------------------------------------------------- candidate cost

  /** The candidate's own writes, each over its commit partner. */
  function LeaderShare(minZJ: real, w: real): real {
    2.0 * minZJ * w
  }

  /** The requests of a domain that is up. */
  function UpShare(liz: real, w: real, r: real): real {
    2.0 * liz * (w + r)
  }

  /** The requests of a domain that is down, whose writes also take the commit partner. */
  function DownShare(liz: real, minZJ: real, w: real, r: real): real {
    2.0 * (liz + minZJ) * w + 2.0 * liz * r
  }

  /** What domain i adds to the cost of leading from z; None when i cannot reach z. */
  function Share(x: Data, i: string, z: string, minZJ: real): Option<real> {
    var w, r := Count(x.writeCounts, i), Count(x.readCounts, i);
    if i == z then Some(LeaderShare(minZJ, w))
    else
      var liz := OneWay(x, i, z);
      if liz.None? then None
      else if Up(x, i) then Some(UpShare(liz.value, w, r))
      else Some(DownShare(liz.value, minZJ, w, r))
  }

  function DomainTotal(x: Data, domains: seq<string>, z: string, minZJ: real, n: nat): Option<real>
    requires n <= |domains|
  {
    if n == 0 then Some(0.0)
    else
      var t, s := DomainTotal(x, domains, z, minZJ, n - 1), Share(x, domains[n - 1], z, minZJ);
      if t.None? || s.None? then None else Some(t.value + s.value)
  }

  function FloatingTotal(x: Data, domains: seq<string>, floating: seq<string>, z: string, minZJ: real, n: nat): real
    requires n <= |floating|
  {
    if n == 0 then 0.0
    else FloatingTotal(x, domains, floating, z, minZJ, n - 1) + FloatingCost(x, domains, floating[n - 1], z, minZJ)
  }

  /** The predicted total cost of leading from z; None when z cannot commit. */
  function Cost(x: Data, domains: seq<string>, floating: seq<string>, z: string): Option<real> {
    var near := Nearest(x, domains, z, |domains|);
    if near.None? then None
    else
      var t := DomainTotal(x, domains, z, near.value, |domains|);
      if t.None? then None else Some(t.value + FloatingTotal(x, domains, floating, z, near.value, |floating|))
  }

  /** A candidate has a cost exactly when it has a commit partner and every domain reaches it. */
  lemma {:induction false} CommitCapable(x: Data, domains: seq<string>, floating: seq<string>, z: string)
    ensures Cost(x, domains, floating, z).Some? <==>
            && (exists k :: 0 <= k < |domains| && Partner(x, z, domains[k]))
            && (forall k :: 0 <= k < |domains| ==> OneWay(x, domains[k], z).Some?)
  {
    NearestIsMinimum(x, domains, z, |domains|);
    var near := Nearest(x, domains, z, |domains|);
    if near.Some? {
      TotalDefined(x, domains, z, near.value, |domains|);
    }
  }

  lemma {:induction false} TotalDefined(x: Data, domains: seq<string>, z: string, minZJ: real, n: nat)
    requires n <= |domains|
    ensures DomainTotal(x, domains, z, minZJ, n).Some? <==> forall k :: 0 <= k < n ==> OneWay(x, domains[k], z).Some?
  {
    if n > 0 {
      TotalDefined(x, domains, z, minZJ, n - 1);
    }
  }

  method CandidateCost(x: Data, domains: seq<string>, floating: seq<string>, z: string) returns (r: Option<real>)
    ensures r == Cost(x, domains, floating, z)
  {
    var near := MinToOtherAvailable(x, domains, z);
    if near.None? {
      return None;
    }
    var minZJ := near.value;
    var total := 0.0;
    var k := 0;
    while k < |domains|
      invariant 0 <= k <= |domains|
      invariant DomainTotal(x, domains, z, minZJ, k) == Some(total)
    {
      var i := domains[k];
      var share := Share(x, i, z, minZJ);
      if share.None? {
        NoneStays(x, domains, z, minZJ, k + 1);
        return None;
      }
      total := total + share.value;
      k := k + 1;
    }
    ghost var domainPart := total;
    for j := 0 to |floating|
      invariant total == domainPart + FloatingTotal(x, domains, floating, z, minZJ, j)
    {
      var cost := ComputeFloatingCost(x, domains, floating[j], z, minZJ);
      total := total + cost;
    }
    return Some(total);
  }

  lemma {:induction false} NoneStays(x: Data, domains: seq<string>, z: string, minZJ: real, n: nat)
    requires n <= |domains| && DomainTotal(x, domains, z, minZJ, n).None?
    ensures DomainTotal(x, domains, z, minZJ, |domains|).None?
    decreases |domains| - n
  {
    if n < |domains| {
      NoneStays(x, domains, z, minZJ, n + 1);
    }
  }

  // ------------------------------------------------------------- ranking

  /** The sort order: commit-capable first, then cheaper, then smaller domain id. */
  predicate Ahead(a: Ranking, b: Ranking) {
    if a.canCommit != b.canCommit then a.canCommit
    else if a.ls != b.ls then a.ls < b.ls
    else Less(a.domain, b.domain)
  }

  lemma AheadStrictWeak()
    ensures StrictWeak(Ahead)
  {
    forall a: Ranking, b: Ranking ensures !(Ahead(a, b) && Ahead(b, a)) {
      LessTrichotomy(a.domain, b.domain);
    }
    forall a: Ranking, b: Ranking, c: Ranking | !Ahead(b, a) && !Ahead(c, b) ensures !Ahead(c, a) {
      NotAheadTransitive(a, b, c);
    }
  }

  lemma NotAheadTransitive(a: Ranking, b: Ranking, c: Ranking)
    requires !Ahead(b, a) && !Ahead(c, b)
    ensures !Ahead(c, a)
  {
    LessStrictWeak();
    LessTrichotomy(a.domain, b.domain);
    LessTrichotomy(b.domain, c.domain);
  }

  /** sort.SliceStable on the candidates. */
  function Rank(s: seq<Ranking>): seq<Ranking> {
    Sort(s, Ahead)
  }

  lemma RankRanks(s: seq<Ranking>)
    ensures Ordered(Rank(s), Ahead) && multiset(Rank(s)) == multiset(s)
  {
    AheadStrictWeak();
    SortSorts(s, Ahead);
  }

  function CandidateOf(x: Data, domains: seq<string>, floating: seq<string>, z: string): Ranking {
    var c := Cost(x, domains, floating, z);
    Ranking(z, if c.Some? then c.value else 0.0, c.Some?)
  }

  /** The available domains among the first n, with their costs. */
  function Considered(x: Data, domains: seq<string>, floating: seq<string>, n: nat): seq<Ranking>
    requires n <= |domains|
  {
    if n == 0 then []
    else
      Considered(x, domains, floating, n - 1) +
      if Up(x, domains[n - 1]) then [CandidateOf(x, domains, floating, domains[n - 1])] else []
  }

  lemma {:induction false} ConsideredMeans(x: Data, domains: seq<string>, floating: seq<string>, n: nat)
    requires n <= |domains|
    ensures forall c :: c in Considered(x, domains, floating, n) <==>
                        exists k :: 0 <= k < n && Up(x, domains[k]) &&
                                    c == CandidateOf(x, domains, floating, domains[k])
  {
    if n > 0 {
      ConsideredMeans(x, domains, floating, n - 1);
    }
  }

  function ConsensusDomains(input: Input): seq<string> {
    Sort(if |input.consensus| == 0 then input.domains else input.consensus, Less)
  }

  /** Demand domains outside the consensus: configured ones and any other with traffic. */
  function FloatingSet(input: Input): set<string> {
    var x, consensus := input.data, ConsensusDomains(input);
    (set d | d in input.floating)
    + (set d | d in x.writeCounts && x.writeCounts[d] > 0.0 && d !in consensus)
    + (set d | d in x.readCounts && x.readCounts[d] > 0.0 && d !in consensus)
  }

  predicate SortedListOf(s: seq<string>, all: set<string>) {
    Ordered(s, Less) && multiset(s) == multiset(all)
  }

  method SortSet(all: set<string>) returns (s: seq<string>)
    ensures SortedListOf(s, all)
  {
    LessStrictWeak();
    s := [];
    var todo := all;
    while todo != {}
      invariant todo <= all && Ordered(s, Less) && multiset(s) == multiset(all - todo)
      decreases |todo|
    {
      var d :| d in todo;
      InsertKeeps(d, s, Less);
      s := Insert(d, s, Less);
      assert all - (todo - {d}) == (all - todo) + {d};
      todo := todo - {d};
    }
    assert all - {} == all;
  }

  /** A result of ComputeCosts on this input. */
  ghost predicate IsResult(input: Input, floating: seq<string>, r: Result) {
    var x, domains := input.data, ConsensusDomains(input);
    && SortedListOf(floating, FloatingSet(input))
    && r.candidates == Rank(Considered(x, domains, floating, |domains|))
    && r == Result(r.candidates, First(r.candidates).0, First(r.candidates).1)
  }

  ghost predicate Computed(input: Input, r: Result) {
    exists floating :: IsResult(input, floating, r)
  }

  /** The first commit-capable candidate, or the empty recommendation. */
  function First(s: seq<Ranking>): (string, real) {
    if s == [] then ("", 0.0) else if s[0].canCommit then (s[0].domain, s[0].ls) else First(s[1..])
  }

  method ComputeCosts(input: Input) returns (r: Result)
    ensures Computed(input, r)
  {
    var x := input.data;
    var domains := ConsensusDomains(input);
    var list := SortSet(FloatingSet(input));
    var found: seq<Ranking> := [];
    for k := 0 to |domains|
      invariant found == Considered(x, domains, list, k)
    {
      var z := domains[k];
      if !Up(x, z) {
        continue;
      }
      var cost := CandidateCost(x, domains, list, z);
      found := found + [Ranking(z, if cost.Some? then cost.value else 0.0, cost.Some?)];
    }
    var ranked := Rank(found);
    r := Result(ranked, "", 0.0);
    var i := 0;
    while i < |ranked|
      invariant 0 <= i <= |ranked|
      invariant First(ranked) == First(ranked[i..])
    {
      if ranked[i].canCommit {
        r := r.(recommended := ranked[i].domain, recommendedLs := ranked[i].ls);
        break;
      }
      assert ranked[i..][1..] == ranked[i + 1..];
      i := i + 1;
    }
    assert IsResult(input, list, r);
  }

  // ------------------------------------------------------------- theorems

  lemma {:induction false} FirstIsBest(s: seq<Ranking>)
    requires Ordered(s, Ahead)
    ensures (forall c :: c in s ==> !c.canCommit) ==> First(s) == ("", 0.0)
    ensures (exists c :: c in s && c.canCommit) ==>
              exists b :: b in s && b.canCommit && First(s) == (b.domain, b.ls) &&
                          forall c :: c in s && c.canCommit ==> !Ahead(c, b)
  {
    if s != [] {
      if s[0].canCommit {
        LessTrichotomy(s[0].domain, s[0].domain);
        assert s[0] in s;
        assert forall c :: c in s && c.canCommit ==> !Ahead(c, s[0]);
      } else {
        FirstIsBest(s[1..]);
        assert forall c :: c in s <==> c == s[0] || c in s[1..];
      }
    }
  }

  /** z is an available consensus domain that could lead. */
  ghost predicate Eligible(input: Input, floating: seq<string>, z: string) {
    var domains := ConsensusDomains(input);
    z in domains && Up(input.data, z) && Cost(input.data, domains, floating, z).Some?
  }

  /** The ranked commit-capable candidates are exactly the eligible domains, with their costs. */
  lemma RankedAreEligible(input: Input, floating: seq<string>, r: Result)
    requires IsResult(input, floating, r)
    ensures var x, domains := input.data, ConsensusDomains(input);
            && Ordered(r.candidates, Ahead)
            && (forall z :: Eligible(input, floating, z) ==> CandidateOf(x, domains, floating, z) in r.candidates)
            && (forall c :: c in r.candidates && c.canCommit ==>
                              Eligible(input, floating, c.domain) && c == CandidateOf(x, domains, floating, c.domain))
  {
    var x, domains := input.data, ConsensusDomains(input);
    var all := Considered(x, domains, floating, |domains|);
    ConsideredMeans(x, domains, floating, |domains|);
    RankRanks(all);
    forall c ensures c in r.candidates <==> c in all {
      assert c in r.candidates <==> c in multiset(r.candidates);
      assert c in all <==> c in multiset(all);
    }
    forall z | Eligible(input, floating, z) ensures CandidateOf(x, domains, floating, z) in all {
      var k :| 0 <= k < |domains| && domains[k] == z;
    }
    forall c | c in all && c.canCommit
      ensures Eligible(input, floating, c.domain) && c == CandidateOf(x, domains, floating, c.domain)
    {
      var k :| 0 <= k < |domains| && Up(x, domains[k]) && c == CandidateOf(x, domains, floating, domains[k]);
    }
  }

  /** The recommendation is an available consensus domain with a commit partner whose (cost,
      domain id) is the smallest of all such candidates; with no such candidate, nothing is
      recommended. */
  lemma RecommendationIsOptimal(input: Input, floating: seq<string>, r: Result)
    requires IsResult(input, floating, r)
    ensures (forall z :: !Eligible(input, floating, z)) ==> r.recommended == ""
    ensures forall z :: Eligible(input, floating, z) ==>
              && Eligible(input, floating, r.recommended)
              && (var domains := ConsensusDomains(input);
                  var best := Cost(input.data, domains, floating, r.recommended).value;
                  var other := Cost(input.data, domains, floating, z).value;
                  r.recommendedLs == best && (best < other || (best == other && !Less(z, r.recommended))))
  {
    RankedAreEligible(input, floating, r);
    FirstIsBest(r.candidates);
  }

  /** The same domains listed in another order. */
  ghost predicate Reordered(a: Input, b: Input) {
    && multiset(a.domains) == multiset(b.domains) && multiset(a.consensus) == multiset(b.consensus)
    && multiset(a.floating) == multiset(b.floating) && a.data == b.data
  }

  /** The whole result does not depend on the order of the input lists. */
  lemma OrderIndependent(a: Input, b: Input, ra: Result, rb: Result)
    requires Reordered(a, b) && Computed(a, ra) && Computed(b, rb)
    ensures ra == rb
  {
    var fa :| IsResult(a, fa, ra);
    var fb :| IsResult(b, fb, rb);
    assert |multiset(a.consensus)| == |a.consensus| && |multiset(b.consensus)| == |b.consensus|;
    SortIgnoresOrder(a.domains, b.domains);
    SortIgnoresOrder(a.consensus, b.consensus);
    assert ConsensusDomains(a) == ConsensusDomains(b);
    assert forall d :: d in a.floating <==> d in multiset(a.floating);
    assert forall d :: d in b.floating <==> d in multiset(b.floating);
    assert FloatingSet(a) == FloatingSet(b);
    SortedUnique(fa, fb);
  }
}
