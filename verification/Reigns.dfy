/** What keeps a position from being ordered twice. Every term has one winner, who orders in it while
    it reigns; but that alone is not enough, since a leader whose tail was overwritten by a later
    term stays in its own term and can order the same indices again. Here a leader remembers what
    it stamped in its term, and orders only what does not contradict that. */
module Reigns {
  import opened Types
  import opened NodeLog
  import opened Cluster

  /** A node's service in a term it won: the stamp it gave to every index it has ordered in it. */
  datatype Reign = Reign(term: nat, stamps: map<nat, Stamped>)

  /** A cluster with the reigns under way and the terms won so far. */
  datatype Realm = Realm(sys: System, reigns: map<string, Reign>, won: set<nat>)

  datatype Move =
    | Win(n: string, term: nat)
    | Retire(n: string)
    | Act(s: Step)

  predicate Begins(r: Realm) {
    Init(r.sys) && r.reigns == map[] && r.won == {}
  }

  /** What the program lets happen: a term is won once, only its reigning winner orders in it, and
      everything else is as in the cluster. A leader is not deposed by entries of a later term. */
  predicate May(r: Realm, m: Move) {
    match m
    case Win(n, term) => n in r.sys.nodes && term !in r.won
    case Retire(_) => true
    case Act(s) =>
      if s.Order? then s.n in r.sys.nodes && s.n in r.sys.disk && s.n in r.reigns && s.term == r.reigns[s.n].term
      else Enabled(r.sys, s)
  }

  /** The move appends a new entry to its leader's log. */
  predicate Appends(r: Realm, m: Move) {
    && m.Act? && m.s.Order? && m.s.n in r.sys.nodes
    && WriteOutcome(r.sys.nodes[m.s.n], m.s.term, m.s.w, m.s.draining).Ordered?
  }

  /** The leader's history with that entry. */
  function Extended(r: Realm, m: Move): (h: History)
    requires Appends(r, m)
    ensures h != [] && h == r.sys.nodes[m.s.n].hist + [h[|h| - 1]] && h[|h| - 1].term == m.s.term
  {
    Write(r.sys.nodes[m.s.n], m.s.term, m.s.w, m.s.draining).hist
  }

  /** The last entry's stamp is the first that the leader gives this index in its term, or the same
      again. */
  predicate Fresh(g: Reign, h: History)
    requires h != []
  {
    |h| in g.stamps ==> g.stamps[|h|] == StampAt(h, |h| - 1)
  }

  /** A leader orders only what is fresh. */
  predicate Careful(r: Realm, m: Move)
    requires May(r, m)
  {
    Appends(r, m) ==> Fresh(r.reigns[m.s.n], Extended(r, m))
  }

  function Make(r: Realm, m: Move): Realm
    requires May(r, m)
  {
    match m
    case Win(n, term) => r.(reigns := r.reigns[n := Reign(term, map[])], won := r.won + {term})
    case Retire(n) => r.(reigns := r.reigns - {n})
    case Act(s) =>
      if s.Order? then
        var after := r.(sys := AfterOrder(r.sys, s.n, s.term, s.w, s.draining));
        if Appends(r, m) then after.(reigns := r.reigns[s.n := Recorded(r.reigns[s.n], Extended(r, m))]) else after
      else r.(sys := Do(r.sys, s), reigns := if s.Crash? then r.reigns - {s.n} else r.reigns)
  }

  function Recorded(g: Reign, h: History): Reign
    requires h != []
  {
    g.(stamps := g.stamps[|h| := StampAt(h, |h| - 1)])
  }

  /** Careful runs. */
  predicate Runs(r: Realm, moves: seq<Move>, q: Realm)
    decreases |moves|
  {
    if moves == [] then q == r
    else May(r, moves[0]) && Careful(r, moves[0]) && Runs(Make(r, moves[0]), moves[1..], q)
  }

  ghost predicate Reached(q: Realm) {
    exists r, moves :: Begins(r) && Runs(r, moves, q)
  }

  // ---------------------------------------------------------------- invariant

  /** The reign knows exactly what was minted in its term. */
  ghost predicate Knows(minted: map<Position, History>, g: Reign) {
    && (forall i :: i in g.stamps ==>
          && (i, g.term) in minted && |minted[(i, g.term)]| == i >= 1
          && g.stamps[i] == StampAt(minted[(i, g.term)], i - 1))
    && (forall i :: (i, g.term) in minted ==> i in g.stamps)
  }

  /** Only won terms are ordered in, each reign has a term of its own, and knows it. */
  ghost predicate Records(minted: map<Position, History>, reigns: map<string, Reign>, won: set<nat>) {
    && (forall at :: at in minted ==> at.1 in won)
    && (forall n :: n in reigns ==> reigns[n].term in won && Knows(minted, reigns[n]))
    && (forall m, n :: m in reigns && n in reigns && m != n ==> reigns[m].term != reigns[n].term)
  }

  ghost predicate RealmInv(r: Realm) {
    SystemInv(r.sys) && Records(r.sys.minted, r.reigns, r.won)
  }

  /** A history is fixed by the stamp of its last entry. */
  lemma StampDetermines(minted: map<Position, History>, g: History, h: History)
    requires AllMintsOk(minted) && Supported(minted, g) && ResultsStamped(h)
    requires |g| == |h| >= 1 && Supported(minted, h[..|h| - 1])
    requires StampAt(g, |g| - 1) == StampAt(h, |h| - 1)
    ensures g == h
  {
    var k := |h| - 1;
    SupportedIsMinted(minted, g);
    assert Wire(g[k]) == g[k] && Wire(h[k]) == h[k];
    SupportedPrefix(minted, g, k);
    if k > 0 {
      SupportedMatch(minted, g[..k], h[..k]);
      assert g[..k][k - 1].term == h[..k][k - 1].term;
      assert g[..k][..k] == g[..k] && h[..k][..k] == h[..k];
    }
    assert g == g[..k] + [g[k]] && h == h[..k] + [h[k]];
  }

  lemma ExtendedSound(r: Realm, m: Move)
    requires RealmInv(r) && Appends(r, m)
    ensures var h := Extended(r, m); Supported(r.sys.minted, h[..|h| - 1]) && ResultsStamped(h)
  {
    var v := r.sys.nodes[m.s.n];
    var h := Extended(r, m);
    assert NodeOk(r.sys.minted, v);
    assert h[..|h| - 1] == v.hist;
    SupportedIsMinted(r.sys.minted, v.hist);
    OrderExtends(v, m.s.term, m.s.w, m.s.draining);
  }

  /** The leader's own record decides: an order keeps every position minted once if and only if its
      stamp is fresh. */
  lemma FreshExact(r: Realm, m: Move)
    requires RealmInv(r) && May(r, m) && Appends(r, m)
    ensures MintsOnce(r.sys.minted, Extended(r, m)) <==> Fresh(r.reigns[m.s.n], Extended(r, m))
  {
    var h, g, minted := Extended(r, m), r.reigns[m.s.n], r.sys.minted;
    var at := (|h|, g.term);
    assert Knows(minted, g);
    ExtendedSound(r, m);
    if at in minted && Fresh(g, h) {
      assert MintOk(minted, at, minted[at]);
      StampDetermines(minted, minted[at], h);
    }
  }

  // ------------------------------------------------------------- preservation

  lemma SameMinted(c: System, s: Step)
    requires Enabled(c, s) && !s.Order?
    ensures Do(c, s).minted == c.minted
  {
  }

  lemma ActKeeps(r: Realm, m: Move)
    requires RealmInv(r) && May(r, m) && m.Act? && !m.s.Order?
    ensures RealmInv(Make(r, m)) && Leads(r.sys, Make(r, m).sys)
  {
    StepKeeps(r.sys, m.s);
    SameMinted(r.sys, m.s);
    LeadsStep(r.sys, m.s);
  }

  /** What the growth of the minted map means for one reign. */
  lemma KnowsMore(minted: map<Position, History>, g: Reign, h: History, term: nat)
    requires Knows(minted, g) && h != [] && ((|h|, term) in minted ==> minted[(|h|, term)] == h)
    ensures Knows(minted[(|h|, term) := h], if term == g.term then Recorded(g, h) else g)
  {
  }

  lemma RecordsMore(minted: map<Position, History>, reigns: map<string, Reign>, won: set<nat>, n: string, h: History)
    requires Records(minted, reigns, won) && n in reigns && h != []
    requires var at := (|h|, reigns[n].term); at in minted ==> minted[at] == h
    ensures Records(minted[(|h|, reigns[n].term) := h], reigns[n := Recorded(reigns[n], h)], won)
  {
    var term := reigns[n].term;
    var more, after := minted[(|h|, term) := h], reigns[n := Recorded(reigns[n], h)];
    forall k | k in after ensures after[k].term in won && Knows(more, after[k]) {
      KnowsMore(minted, reigns[k], h, term);
    }
  }

  /** What an order that mints once does. */
  lemma OrderShape(c: System, s: Step)
    requires s.Order? && s.n in c.nodes && s.n in c.disk
    requires WriteOutcome(c.nodes[s.n], s.term, s.w, s.draining).Ordered?
    requires MintsOnce(c.minted, Write(c.nodes[s.n], s.term, s.w, s.draining).hist)
    ensures Enabled(c, s) && Do(c, s) == AfterOrder(c, s.n, s.term, s.w, s.draining)
    ensures var h := Write(c.nodes[s.n], s.term, s.w, s.draining).hist;
            Do(c, s).minted == c.minted[(|h|, s.term) := h]
  {
  }

  lemma OrderStays(r: Realm, m: Move)
    requires RealmInv(r) && May(r, m) && Careful(r, m) && Appends(r, m)
    ensures RealmInv(Make(r, m)) && Leads(r.sys, Make(r, m).sys)
  {
    FreshExact(r, m);
    OrderShape(r.sys, m.s);
    StepKeeps(r.sys, m.s);
    LeadsStep(r.sys, m.s);
    RecordsMore(r.sys.minted, r.reigns, r.won, m.s.n, Extended(r, m));
  }

  lemma OtherwiseKeeps(r: Realm, m: Move)
    requires RealmInv(r) && May(r, m) && (m.Act? ==> m.s.Order? && !Appends(r, m))
    ensures RealmInv(Make(r, m)) && Make(r, m).sys == r.sys
  {
    if m.Win? {
      RecordsWin(r.sys.minted, r.reigns, r.won, m.n, m.term);
    }
  }

  lemma RecordsWin(minted: map<Position, History>, reigns: map<string, Reign>, won: set<nat>, n: string, term: nat)
    requires Records(minted, reigns, won) && term !in won
    ensures Records(minted, reigns[n := Reign(term, map[])], won + {term})
  {
    forall i: nat ensures (i, term) !in minted {
      var at: Position := (i, term);
      assert at in minted ==> at.1 in won;
    }
  }

  lemma MoveKeeps(r: Realm, m: Move)
    requires RealmInv(r) && May(r, m) && Careful(r, m)
    ensures RealmInv(Make(r, m)) && Leads(r.sys, Make(r, m).sys)
  {
    if Appends(r, m) {
      OrderStays(r, m);
    } else if m.Act? && !m.s.Order? {
      ActKeeps(r, m);
    } else {
      OtherwiseKeeps(r, m);
    }
  }

  lemma {:induction false} RunsKeep(r: Realm, moves: seq<Move>, q: Realm)
    requires RealmInv(r) && Runs(r, moves, q)
    ensures RealmInv(q) && Leads(r.sys, q.sys)
    decreases |moves|
  {
    if moves != [] {
      MoveKeeps(r, moves[0]);
      RunsKeep(Make(r, moves[0]), moves[1..], q);
      LeadsOn(r.sys, Make(r, moves[0]).sys, q.sys);
    }
  }

  // ----------------------------------------------------------------- theorems

  /** Every careful run is a run of the cluster, so whatever is proved of reachable clusters holds of
      it, with no guard left that a leader could not check. */
  lemma CarefulIsReachable(q: Realm)
    requires Reached(q)
    ensures RealmInv(q) && Reachable(q.sys)
  {
    var r, moves :| Begins(r) && Runs(r, moves, q);
    assert SystemInv(r.sys);
    RunsKeep(r, moves, q);
    LeadsByRun(r.sys, q.sys);
  }

  /** Log Matching when every term has one winner and leaders order only what is fresh. */
  lemma CarefulLogMatching(q: Realm, a: string, b: string)
    requires Reached(q) && a in q.sys.nodes && b in q.sys.nodes
    ensures Matching(q.sys.nodes[a].hist, q.sys.nodes[b].hist)
  {
    CarefulIsReachable(q);
    LogMatching(q.sys, a, b);
  }

  /** And exactly then: after a careful run, the history that an order makes matches any node that
      has the leader's term at the new index if and only if the stamp is fresh. */
  lemma OrderMatchesIffFresh(q: Realm, m: Move, n: string)
    requires Reached(q) && May(q, m) && Appends(q, m) && n in q.sys.nodes
    requires var h := Extended(q, m); |h| <= |q.sys.nodes[n].hist| && q.sys.nodes[n].hist[|h| - 1].term == m.s.term
    ensures Matching(Extended(q, m), q.sys.nodes[n].hist) <==> Fresh(q.reigns[m.s.n], Extended(q, m))
  {
    CarefulIsReachable(q);
    FreshExact(q, m);
    var h, held, minted := Extended(q, m), q.sys.nodes[n].hist, q.sys.minted;
    assert NodeOk(minted, q.sys.nodes[n]);
    assert MintedAt(minted, held, |h| - 1);
    MatchesHeld(h, held);
  }

  lemma MatchesHeld(h: History, held: History)
    requires 1 <= |h| <= |held| && held[|h| - 1].term == h[|h| - 1].term
    ensures Matching(h, held) <==> h == held[..|h|]
  {
    assert h[..|h|] == h;
    if h == held[..|h|] {
      forall i | 0 <= i < |h| && h[i].term == held[i].term ensures h[..i + 1] == held[..i + 1] {
        assert held[..|h|][..i + 1] == held[..i + 1];
      }
    }
  }

  /** A check without any record but a number: it is enough that the leader's log still reaches
      everything it has ordered in its term. */
  lemma LongEnough(q: Realm, m: Move)
    requires May(q, m) && Appends(q, m)
    requires forall i :: i in q.reigns[m.s.n].stamps ==> i <= |q.sys.nodes[m.s.n].hist|
    ensures Fresh(q.reigns[m.s.n], Extended(q, m))
  {
  }

  // --------------------------------------------------------------- going on

  ghost predicate Closed(realms: iset<Realm>) {
    forall r, m :: r in realms && May(r, m) && Careful(r, m) ==> Make(r, m) in realms
  }

  /** q comes after r by careful moves: it is in every set that has r and is closed under them. */
  ghost predicate Comes(r: Realm, q: Realm) {
    forall realms: iset<Realm> :: r in realms && Closed(realms) ==> q in realms
  }

  lemma ComesMove(r: Realm, m: Move)
    requires May(r, m) && Careful(r, m)
    ensures Comes(r, Make(r, m))
  {
  }

  lemma ComesOn(r: Realm, q: Realm, p: Realm)
    requires Comes(r, q) && Comes(q, p)
    ensures Comes(r, p)
  {
  }

  ghost predicate RunsTo(r: Realm, q: Realm) {
    exists moves :: Runs(r, moves, q)
  }

  /** What comes after a beginning is reached. */
  lemma ReachedOn(r: Realm, q: Realm)
    requires Begins(r) && Comes(r, q)
    ensures Reached(q)
  {
    var ahead := iset p: Realm | RunsTo(r, p);
    assert Runs(r, [], r);
    forall p, m | p in ahead && May(p, m) && Careful(p, m) ensures Make(p, m) in ahead {
      var moves :| Runs(r, moves, p);
      RunsOne(r, moves, p, m);
    }
    assert q in ahead;
    var moves :| Runs(r, moves, q);
  }

  lemma {:induction false} RunsOne(r: Realm, moves: seq<Move>, p: Realm, m: Move)
    requires Runs(r, moves, p) && May(p, m) && Careful(p, m)
    ensures Runs(r, moves + [m], Make(p, m))
    decreases |moves|
  {
    if moves == [] {
      assert (moves + [m])[1..] == [];
    } else {
      assert (moves + [m])[0] == moves[0] && (moves + [m])[1..] == moves[1..] + [m];
      RunsOne(Make(r, moves[0]), moves[1..], p, m);
    }
  }
}
