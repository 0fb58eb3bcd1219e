/** What a candidate's predicted cost responds to, stated on the input data: how much every read and
    every write adds, and that nothing else does (internal/optimizer/optimizer.go:44-226). */
module CostLaws {
  import opened Types
  import opened Orders
  import opened CostModel

  /** Latencies are as recorded, and none to oneself. */
  lemma OneWayMeans(x: Data, from: string, to: string)
    ensures from == to ==> OneWay(x, from, to) == Some(0.0)
    ensures from != to && from in x.oneWayMillis && to in x.oneWayMillis[from] ==>
              OneWay(x, from, to) == Some(x.oneWayMillis[from][to])
    ensures from != to && (from in x.oneWayMillis ==> to !in x.oneWayMillis[from]) ==> OneWay(x, from, to) == None
  {
  }

  /** The same data with dw more writes and dr more reads at d. */
  function More(x: Data, d: string, dw: real, dr: real): Data {
    x.(writeCounts := x.writeCounts[d := Count(x.writeCounts, d) + dw],
    readCounts := x.readCounts[d := Count(x.readCounts, d) + dr])
  }

  /** How often d is among the first n. */
  function Occurs(domains: seq<string>, d: string, n: nat): nat
    requires n <= |domains|
  {
    if n == 0 then 0 else Occurs(domains, d, n - 1) + if domains[n - 1] == d then 1 else 0
  }

  function Latency(x: Data, from: string, to: string): real {
    if OneWay(x, from, to).Some? then OneWay(x, from, to).value else 0.0
  }

  // ----------------------------------------------------- latencies do not change

  lemma {:induction false} NearestSame(x: Data, d: string, dw: real, dr: real, domains: seq<string>, z: string, n: nat)
    requires n <= |domains|
    ensures Nearest(More(x, d, dw, dr), domains, z, n) == Nearest(x, domains, z, n)
  {
    if n > 0 {
      NearestSame(x, d, dw, dr, domains, z, n - 1);
    }
  }

  lemma {:induction false} BestWriteSame(x: Data, d: string, dw: real, dr: real, domains: seq<string>, u: string,
                                         z: string, luz: real, w: real, direct: real, n: nat)
    requires n <= |domains|
    ensures BestWrite(More(x, d, dw, dr), domains, u, z, luz, w, direct, n) ==
            BestWrite(x, domains, u, z, luz, w, direct, n)
  {
    if n > 0 {
      BestWriteSame(x, d, dw, dr, domains, u, z, luz, w, direct, n - 1);
    }
  }

  // ----------------------------------------------------- consensus domains

  function Scaled(price: real, k: real): real {
    price * k
  }

  /** delta, n times. */
  function Times(n: nat, delta: real): real {
    if n == 0 then 0.0 else Times(n - 1, delta) + delta
  }

  /** When each share of d grows by delta, the total grows by it once for every time d is listed. */
  lemma {:induction false} TotalMore(x: Data, d: string, dw: real, dr: real, delta: real,
                                     domains: seq<string>, z: string, minZJ: real, n: nat)
    requires n <= |domains| && DomainTotal(x, domains, z, minZJ, n).Some?
    requires Share(x, d, z, minZJ).Some? ==>
               Share(More(x, d, dw, dr), d, z, minZJ) == Some(Share(x, d, z, minZJ).value + delta)
    ensures DomainTotal(More(x, d, dw, dr), domains, z, minZJ, n) ==
            Some(DomainTotal(x, domains, z, minZJ, n).value + Times(Occurs(domains, d, n), delta))
  {
    if n > 0 {
      TotalMore(x, d, dw, dr, delta, domains, z, minZJ, n - 1);
      if domains[n - 1] != d {
        OtherShare(x, d, dw, dr, domains[n - 1], z, minZJ);
      }
    }
  }

  lemma OtherShare(x: Data, d: string, dw: real, dr: real, i: string, z: string, minZJ: real)
    requires i != d
    ensures Share(More(x, d, dw, dr), i, z, minZJ) == Share(x, i, z, minZJ)
  {
  }

  lemma {:induction false} FloatingSame(x: Data, d: string, dw: real, dr: real, domains: seq<string>,
                                        floating: seq<string>, z: string, minZJ: real, n: nat)
    requires n <= |floating| && d !in floating
    ensures FloatingTotal(More(x, d, dw, dr), domains, floating, z, minZJ, n) ==
            FloatingTotal(x, domains, floating, z, minZJ, n)
  {
    if n > 0 {
      FloatingSame(x, d, dw, dr, domains, floating, z, minZJ, n - 1);
      OtherFloating(x, d, dw, dr, domains, floating[n - 1], z, minZJ);
    }
  }

  lemma OtherFloating(x: Data, d: string, dw: real, dr: real, domains: seq<string>, u: string, z: string, minZJ: real)
    requires u != d
    ensures FloatingCost(More(x, d, dw, dr), domains, u, z, minZJ) == FloatingCost(x, domains, u, z, minZJ)
  {
    var luz, w := OneWay(x, u, z), Count(x.writeCounts, u);
    if luz.Some? {
      BestWriteSame(x, d, dw, dr, domains, u, z, luz.value, w, DirectWrite(luz.value, minZJ, w), |domains|);
    }
  }

  /** A share of d that grows by delta makes the cost grow by it once for every time d is listed. */
  lemma DemandAdds(x: Data, domains: seq<string>, floating: seq<string>, z: string, d: string,
                   dw: real, dr: real, delta: real)
    requires Cost(x, domains, floating, z).Some? && d !in floating
    requires var minZJ := Nearest(x, domains, z, |domains|).value;
             Share(x, d, z, minZJ).Some? ==>
               Share(More(x, d, dw, dr), d, z, minZJ) == Some(Share(x, d, z, minZJ).value + delta)
    ensures Cost(More(x, d, dw, dr), domains, floating, z) ==
            Some(Cost(x, domains, floating, z).value + Times(Occurs(domains, d, |domains|), delta))
  {
    var minZJ := Nearest(x, domains, z, |domains|).value;
    NearestSame(x, d, dw, dr, domains, z, |domains|);
    TotalMore(x, d, dw, dr, delta, domains, z, minZJ, |domains|);
    FloatingSame(x, d, dw, dr, domains, floating, z, minZJ, |floating|);
  }

  /** What one more write at a consensus domain d costs a leader in z whose nearest commit partner is
      at `near`: at z itself twice that, at another domain that is up twice the latency to z, and at
      one that is down twice both. */
  function WritePrice(x: Data, d: string, z: string, near: real): real {
    if d == z then 2.0 * near else if Up(x, d) then 2.0 * Latency(x, d, z) else 2.0 * (Latency(x, d, z) + near)
  }

  /** What one more read costs: nothing at z, which answers it itself, and twice the latency to z
      elsewhere, up or down. */
  function ReadPrice(x: Data, d: string, z: string): real {
    if d == z then 0.0 else 2.0 * Latency(x, d, z)
  }

  /** k more writes at a consensus domain add their price, once for every time the domain is listed. */
  lemma WritesCost(x: Data, domains: seq<string>, floating: seq<string>, z: string, d: string, k: real)
    requires Cost(x, domains, floating, z).Some? && d !in floating
    ensures Nearest(x, domains, z, |domains|).Some?
    ensures var near := Nearest(x, domains, z, |domains|).value;
            Cost(More(x, d, k, 0.0), domains, floating, z) ==
            Some(Cost(x, domains, floating, z).value +
                 Times(Occurs(domains, d, |domains|), Scaled(WritePrice(x, d, z, near), k)))
  {
    var near := Nearest(x, domains, z, |domains|).value;
    WriteShare(x, d, z, near, k);
    DemandAdds(x, domains, floating, z, d, k, 0.0, Scaled(WritePrice(x, d, z, near), k));
  }

  /** And k more reads theirs. */
  lemma ReadsCost(x: Data, domains: seq<string>, floating: seq<string>, z: string, d: string, k: real)
    requires Cost(x, domains, floating, z).Some? && d !in floating
    ensures Cost(More(x, d, 0.0, k), domains, floating, z) ==
            Some(Cost(x, domains, floating, z).value +
                 Times(Occurs(domains, d, |domains|), Scaled(ReadPrice(x, d, z), k)))
  {
    ReadsDelta(x, domains, floating, z, d, k, Scaled(ReadPrice(x, d, z), k));
  }

  lemma ReadsDelta(x: Data, domains: seq<string>, floating: seq<string>, z: string, d: string, k: real, delta: real)
    requires Cost(x, domains, floating, z).Some? && d !in floating && delta == Scaled(ReadPrice(x, d, z), k)
    ensures Cost(More(x, d, 0.0, k), domains, floating, z) ==
            Some(Cost(x, domains, floating, z).value + Times(Occurs(domains, d, |domains|), delta))
  {
    ReadShare(x, d, z, Nearest(x, domains, z, |domains|).value, k);
    DemandAdds(x, domains, floating, z, d, 0.0, k, delta);
  }

  lemma LeaderMore(near: real, w: real, k: real)
    ensures LeaderShare(near, w + k) == LeaderShare(near, w) + Scaled(2.0 * near, k)
  {
  }

  lemma UpMore(far: real, w: real, r: real, k: real)
    ensures UpShare(far, w + k, r) == UpShare(far, w, r) + Scaled(2.0 * far, k)
    ensures UpShare(far, w, r + k) == UpShare(far, w, r) + Scaled(2.0 * far, k)
  {
  }

  lemma DownMore(far: real, near: real, w: real, r: real, k: real)
    ensures DownShare(far, near, w + k, r) == DownShare(far, near, w, r) + Scaled(2.0 * (far + near), k)
    ensures DownShare(far, near, w, r + k) == DownShare(far, near, w, r) + Scaled(2.0 * far, k)
  {
  }

  lemma WriteShare(x: Data, d: string, z: string, near: real, k: real)
    ensures Share(x, d, z, near).Some? ==>
              Share(More(x, d, k, 0.0), d, z, near) ==
              Some(Share(x, d, z, near).value + Scaled(WritePrice(x, d, z, near), k))
  {
    var w, r, far := Count(x.writeCounts, d), Count(x.readCounts, d), Latency(x, d, z);
    LeaderMore(near, w, k);
    UpMore(far, w, r, k);
    DownMore(far, near, w, r, k);
    assert r + 0.0 == r;
  }

  lemma ReadShare(x: Data, d: string, z: string, near: real, k: real)
    ensures Share(x, d, z, near).Some? ==>
              Share(More(x, d, 0.0, k), d, z, near) ==
              Some(Share(x, d, z, near).value + Scaled(ReadPrice(x, d, z), k))
  {
    var w, r, far := Count(x.writeCounts, d), Count(x.readCounts, d), Latency(x, d, z);
    UpMore(far, w, r, k);
    DownMore(far, near, w, r, k);
    assert w + 0.0 == w && Scaled(0.0, k) == 0.0;
  }

  // ----------------------------------------------------- floating domains

  /** The way of a write from u over z and a responder back to u, when every leg is known; a leg back
      that was not measured counts as the way there. */
  function RoundTrip(x: Data, u: string, z: string, responder: string): Option<real> {
    if responder == z || !Up(x, responder) then None
    else if OneWay(x, u, z).None? || OneWay(x, z, responder).None? then None
    else if OneWay(x, responder, u).Some? then
      Some(OneWay(x, u, z).value + OneWay(x, z, responder).value + OneWay(x, responder, u).value)
    else if OneWay(x, u, responder).Some? then
      Some(OneWay(x, u, z).value + OneWay(x, z, responder).value + OneWay(x, u, responder).value)
    else None
  }

  lemma LesserTimes(a: real, b: real, w: real)
    requires w >= 0.0
    ensures (if Scaled(a, w) < Scaled(b, w) then Scaled(a, w) else Scaled(b, w)) == Scaled(if a < b then a else b, w)
  {
    if a < b {
      assert (b - a) * w >= 0.0;
    } else {
      assert (a - b) * w >= 0.0;
    }
  }

  /** Unit is the least of the direct way and the known trips over the first n responders. */
  ghost predicate LeastTrip(x: Data, domains: seq<string>, u: string, z: string, direct: real, n: nat, unit: real)
    requires n <= |domains|
  {
    && unit <= direct
    && (forall k :: 0 <= k < n && RoundTrip(x, u, z, domains[k]).Some? ==> unit <= RoundTrip(x, u, z, domains[k]).value)
    && (unit == direct || exists k :: 0 <= k < n && RoundTrip(x, u, z, domains[k]) == Some(unit))
  }

  lemma {:induction false} LeastPrice(x: Data, domains: seq<string>, u: string, z: string, trip: real, w: real, n: nat)
    returns (unit: real)
    requires OneWay(x, u, z).Some? && n <= |domains| && w >= 0.0
    ensures LeastTrip(x, domains, u, z, trip, n, unit)
    ensures BestWrite(x, domains, u, z, OneWay(x, u, z).value, w, Scaled(trip, w), n) == Scaled(unit, w)
  {
    if n == 0 {
      unit := trip;
    } else {
      var best := LeastPrice(x, domains, u, z, trip, w, n - 1);
      var over := RoundTrip(x, u, z, domains[n - 1]);
      RelayIsTrip(x, u, z, w, domains[n - 1]);
      unit := if over.Some? && over.value < best then over.value else best;
      if over.Some? {
        LesserTimes(over.value, best, w);
      }
      Lesser(x, domains, u, z, trip, n, best, unit);
    }
  }

  lemma Lesser(x: Data, domains: seq<string>, u: string, z: string, direct: real, n: nat, best: real, unit: real)
    requires 1 <= n <= |domains| && LeastTrip(x, domains, u, z, direct, n - 1, best)
    requires var over := RoundTrip(x, u, z, domains[n - 1]);
             unit == if over.Some? && over.value < best then over.value else best
    ensures LeastTrip(x, domains, u, z, direct, n, unit)
  {
  }

  lemma RelayIsTrip(x: Data, u: string, z: string, w: real, responder: string)
    requires OneWay(x, u, z).Some?
    ensures var trip, cost := RoundTrip(x, u, z, responder), RelayCost(x, u, z, OneWay(x, u, z).value, w, responder);
            && (trip.Some? <==> cost.Some?) && (trip.Some? ==> cost.value == Scaled(trip.value, w))
  {
  }

  /** What a floating domain costs: every read the way to z and back, and every write the least of the
      direct round trip over z and its commit partner and of every known trip over a responder. */
  lemma FloatingPrice(x: Data, domains: seq<string>, u: string, z: string, minZJ: real) returns (unit: real)
    requires OneWay(x, u, z).Some? && Count(x.writeCounts, u) >= 0.0
    ensures var luz := OneWay(x, u, z).value;
            && LeastTrip(x, domains, u, z, 2.0 * (luz + minZJ), |domains|, unit)
            && FloatingCost(x, domains, u, z, minZJ) ==
               Scaled(2.0 * luz, Count(x.readCounts, u)) + Scaled(unit, Count(x.writeCounts, u))
  {
    var luz, w, r := OneWay(x, u, z).value, Count(x.writeCounts, u), Count(x.readCounts, u);
    unit := LeastPrice(x, domains, u, z, 2.0 * (luz + minZJ), w, |domains|);
    DirectIsScaled(luz, minZJ, w, r);
  }

  lemma DirectIsScaled(luz: real, minZJ: real, w: real, r: real)
    ensures DirectWrite(luz, minZJ, w) == Scaled(2.0 * (luz + minZJ), w)
    ensures ReadRoundTrips(luz, r) == Scaled(2.0 * luz, r)
  {
  }

  /** A floating domain that cannot reach z costs nothing. */
  lemma UnreachableIsFree(x: Data, domains: seq<string>, u: string, z: string, minZJ: real)
    requires OneWay(x, u, z).None?
    ensures FloatingCost(x, domains, u, z, minZJ) == 0.0
  {
  }

  // ----------------------------------------------------- the whole

  predicate NoDemand(x: Data) {
    (forall d :: d in x.writeCounts ==> x.writeCounts[d] == 0.0) &&
    (forall d :: d in x.readCounts ==> x.readCounts[d] == 0.0)
  }

  /** Without demand every possible leader costs nothing. */
  lemma NoDemandNoCost(x: Data, domains: seq<string>, floating: seq<string>, z: string)
    requires NoDemand(x) && Cost(x, domains, floating, z).Some?
    ensures Cost(x, domains, floating, z) == Some(0.0)
  {
    var near := Nearest(x, domains, z, |domains|).value;
    IdleTotal(x, domains, z, near, |domains|);
    IdleFloating(x, domains, floating, z, near, |floating|);
  }

  lemma {:induction false} IdleTotal(x: Data, domains: seq<string>, z: string, near: real, n: nat)
    requires NoDemand(x) && n <= |domains| && DomainTotal(x, domains, z, near, n).Some?
    ensures DomainTotal(x, domains, z, near, n) == Some(0.0)
  {
    if n > 0 {
      IdleTotal(x, domains, z, near, n - 1);
      IdleShare(x, domains[n - 1], z, near);
    }
  }

  lemma IdleShare(x: Data, d: string, z: string, near: real)
    requires NoDemand(x) && Share(x, d, z, near).Some?
    ensures Share(x, d, z, near) == Some(0.0)
  {
    var w, r, far := Count(x.writeCounts, d), Count(x.readCounts, d), Latency(x, d, z);
    assert w == 0.0 && r == 0.0;
    assert LeaderShare(near, 0.0) == 0.0 && UpShare(far, 0.0, 0.0) == 0.0 && DownShare(far, near, 0.0, 0.0) == 0.0;
  }

  lemma {:induction false} IdleFloating(x: Data, domains: seq<string>, floating: seq<string>, z: string, near: real,
                                        n: nat)
    requires NoDemand(x) && n <= |floating|
    ensures FloatingTotal(x, domains, floating, z, near, n) == 0.0
  {
    if n > 0 {
      IdleFloating(x, domains, floating, z, near, n - 1);
      if OneWay(x, floating[n - 1], z).Some? {
        var unit := FloatingPrice(x, domains, floating[n - 1], z, near);
        assert Scaled(unit, 0.0) == 0.0 && Scaled(2.0 * OneWay(x, floating[n - 1], z).value, 0.0) == 0.0;
      }
    }
  }

  /** The cost of leading from z is what the consensus domains cost plus the price of every floating
      one, each as often as it is listed. */
  lemma {:induction false} FloatingAdds(x: Data, domains: seq<string>, floating: seq<string>, u: string, z: string)
    ensures var with, without := Cost(x, domains, floating + [u], z), Cost(x, domains, floating, z);
            && (with.Some? <==> without.Some?)
            && (with.Some? ==>
                  && Nearest(x, domains, z, |domains|).Some?
                  && with.value == without.value +
                                   FloatingCost(x, domains, u, z, Nearest(x, domains, z, |domains|).value))
  {
    var near := Nearest(x, domains, z, |domains|);
    if near.Some? {
      FloatingPrefix(x, domains, floating, u, z, near.value, |floating|);
    }
  }

  lemma {:induction false} FloatingPrefix(x: Data, domains: seq<string>, floating: seq<string>, u: string, z: string,
                                          near: real, n: nat)
    requires n <= |floating|
    ensures FloatingTotal(x, domains, floating + [u], z, near, n) == FloatingTotal(x, domains, floating, z, near, n)
  {
    if n > 0 {
      FloatingPrefix(x, domains, floating, u, z, near, n - 1);
    }
  }

  /** A candidate can commit exactly with another listed domain that is available and whose latency
      from it is recorded, provided every listed domain can reach it. */
  lemma CanCommit(x: Data, domains: seq<string>, floating: seq<string>, z: string)
    ensures Cost(x, domains, floating, z).Some? <==>
            && (exists k ::
                  && 0 <= k < |domains| && domains[k] != z && domains[k] in x.available && x.available[domains[k]]
                  && z in x.oneWayMillis && domains[k] in x.oneWayMillis[z])
            && (forall k :: 0 <= k < |domains| && domains[k] != z ==>
                  domains[k] in x.oneWayMillis && z in x.oneWayMillis[domains[k]])
  {
    CommitCapable(x, domains, floating, z);
    forall k | 0 <= k < |domains|
      ensures Partner(x, z, domains[k]) <==>
              && domains[k] != z && domains[k] in x.available && x.available[domains[k]]
              && z in x.oneWayMillis && domains[k] in x.oneWayMillis[z]
      ensures OneWay(x, domains[k], z).Some? <==>
              domains[k] == z || (domains[k] in x.oneWayMillis && z in x.oneWayMillis[domains[k]])
    {
      OneWayMeans(x, z, domains[k]);
      OneWayMeans(x, domains[k], z);
    }
  }

  /** The candidates are the configured consensus domains, or all domains when none are configured. */
  lemma ConsensusListed(input: Input)
    ensures var configured := if |input.consensus| == 0 then input.domains else input.consensus;
            multiset(ConsensusDomains(input)) == multiset(configured)
  {
    LessStrictWeak();
    SortSorts(if |input.consensus| == 0 then input.domains else input.consensus, Less);
  }

  /** Every domain with traffic counts, as a consensus domain or as a floating one; and only a domain
      configured as floating does without traffic. */
  lemma DemandCounted(input: Input, d: string)
    ensures d in input.floating ==> d in FloatingSet(input)
    ensures Count(input.data.writeCounts, d) > 0.0 || Count(input.data.readCounts, d) > 0.0 ==>
              d in ConsensusDomains(input) || d in FloatingSet(input)
    ensures d in FloatingSet(input) && d !in input.floating ==>
              && d !in ConsensusDomains(input)
              && (Count(input.data.writeCounts, d) > 0.0 || Count(input.data.readCounts, d) > 0.0)
  {
  }
}
