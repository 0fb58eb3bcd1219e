/** Concrete runs in which a property fails of the program, one for each property whose exact
    condition is proved elsewhere. They happen on four nodes, each a domain of its own. */
module Witnesses {
  import opened Types
  import opened Quorums
  import opened NodeLog
  import opened Cluster
  import opened Evidence
  import opened Reigns
  import Backfill
  import KvStore
  import Durability

  // -------------------------------------------------------------------- steps

  function Put(request: string): WriteRequest {
    WriteRequest(request, "", Command(request, request))
  }

  function Made(term: nat, index: nat, request: string): LogEntry {
    LogEntry(term, index, request, "", Command(request, request), CommandResult(Command(request, request)))
  }

  function With(h: History): NodeState {
    EMPTY_NODE.(hist := h)
  }

  /** A request that a node without applied entries has not seen is ordered at the end. */
  lemma Orders(h: History, term: nat, request: string)
    requires forall i :: 0 <= i < |h| ==> h[i].request != request
    ensures var e := Made(term, |h| + 1, request);
            && WriteOutcome(With(h), term, Put(request), false) == Ordered(e)
            && Write(With(h), term, Put(request), false) == With(h + [e])
  {
    FindMeans(Retained(With(h)), request);
    assert h[0..] == h;
  }

  lemma OrderStep(c: System, n: string, h: History, term: nat, request: string) returns (d: System)
    requires n in c.nodes && n in c.disk && c.nodes[n] == With(h)
    requires forall i :: 0 <= i < |h| ==> h[i].request != request
    requires (|h| + 1, term) !in c.minted
    ensures Leads(c, d)
    ensures var g := h + [Made(term, |h| + 1, request)];
            d == c.(nodes := c.nodes[n := With(g)], minted := c.minted[(|h| + 1, term) := g])
  {
    Orders(h, term, request);
    d := Do(c, Order(n, term, Put(request), false));
    LeadsStep(c, Order(n, term, Put(request), false));
  }

  /** `from` sends its entry number i to n. */
  lemma CopyStep(c: System, from: string, n: string, i: nat) returns (d: System)
    requires {from, n} <= c.nodes.Keys && {from, n} <= c.disk.Keys
    requires c.nodes[from].floor <= i < |c.nodes[from].hist|
    ensures Leads(c, d)
    ensures d.nodes == c.nodes[n := AppendMsg(c.nodes[n], StampAt(c.nodes[from].hist, i))]
    ensures d.disk == c.disk && d.minted == c.minted
    ensures d.entries == c.entries + {StampAt(c.nodes[from].hist, i)}
  {
    var m := StampAt(c.nodes[from].hist, i);
    var sent := Do(c, Send(from, i));
    LeadsStep(c, Send(from, i));
    LeadsStep(sent, Deliver(n, m));
    d := Do(sent, Deliver(n, m));
    LeadsOn(c, sent, d);
  }

  /** The next entry of h, sent to a node that holds exactly what precedes it. */
  lemma AppendsNext(h: History, i: nat)
    requires i < |h| && Indexed(h) && ResultsStamped(h)
    ensures AppendMsg(With(h[..i]), StampAt(h, i)) == With(h[..i + 1])
  {
    assert Wire(h[i]) == h[i];
    assert h[..i + 1] == h[..i] + [h[i]];
  }

  /** `from` sends its entries from number i on to n, which holds exactly those before. */
  lemma {:induction false} CopyRest(c: System, from: string, n: string, h: History, i: nat) returns (d: System)
    requires {from, n} <= c.nodes.Keys && {from, n} <= c.disk.Keys && from != n
    requires i <= |h| && Indexed(h) && ResultsStamped(h)
    requires c.nodes[from] == With(h) && c.nodes[n] == With(h[..i])
    ensures Leads(c, d) && d.nodes == c.nodes[n := With(h)]
    ensures d.disk == c.disk && d.minted == c.minted && c.entries <= d.entries
    ensures forall k :: i <= k < |h| ==> StampAt(h, k) in d.entries
    decreases |h| - i
  {
    if i == |h| {
      assert h[..i] == h;
      d := c;
    } else {
      var c1 := CopyStep(c, from, n, i);
      AppendsNext(h, i);
      d := CopyRest(c1, from, n, h, i + 1);
      LeadsOn(c, c1, d);
    }
  }

  /** n commits its whole log. */
  lemma CommitStep(c: System, n: string) returns (d: System)
    requires n in c.nodes && n in c.disk && c.nodes[n].commit < |c.nodes[n].hist|
    ensures Leads(c, d)
    ensures d == c.(nodes := c.nodes[n := ApplyThrough(c.nodes[n], |c.nodes[n].hist|)])
  {
    var h := c.nodes[n].hist;
    var s := Commit(n, |h|, h[|h| - 1].term, h[|h| - 1].request);
    LocalStep(c, s);
    d := Do(c, s);
    LeadsStep(c, s);
  }

  lemma SaveStep(c: System, n: string) returns (d: System)
    requires n in c.nodes && n in c.disk
    ensures Leads(c, d) && d == c.(disk := c.disk[n := c.nodes[n]])
  {
    PersistStep(c, Persist(n));
    d := Do(c, Persist(n));
    LeadsStep(c, Persist(n));
  }

  /** `from` sends all its entries to n, which holds nothing. */
  lemma CopyAll(c: System, from: string, n: string, h: History) returns (d: System)
    requires {from, n} <= c.nodes.Keys && {from, n} <= c.disk.Keys && from != n
    requires Indexed(h) && ResultsStamped(h) && c.nodes[from] == With(h) && c.nodes[n] == EMPTY_NODE
    ensures Leads(c, d) && d.nodes == c.nodes[n := With(h)]
    ensures d.disk == c.disk && d.minted == c.minted
    ensures forall k :: 0 <= k < |h| ==> StampAt(h, k) in d.entries
  {
    assert With(h[..0]) == EMPTY_NODE;
    d := CopyRest(c, from, n, h, 0);
  }

  /** n brings all its entries to m, commits them and saves. */
  lemma CopyCommitSave(c: System, n: string, m: string, h: History) returns (d: System)
    requires {n, m} <= c.nodes.Keys && {n, m} <= c.disk.Keys && n != m && h != []
    requires Indexed(h) && ResultsStamped(h) && c.nodes[n] == With(h) && c.nodes[m] == EMPTY_NODE
    ensures Leads(c, d) && d.nodes == c.nodes[m := With(h)][n := ApplyThrough(With(h), |h|)]
    ensures d.disk == c.disk[n := ApplyThrough(With(h), |h|)] && d.minted == c.minted
  {
    var c1 := CopyAll(c, n, m, h);
    var c2 := CommitStep(c1, n);
    LeadsOn(c, c1, c2);
    d := SaveStep(c2, n);
    LeadsOn(c, c2, d);
  }

  /** n orders two requests in a row, brings its log to m and commits it. */
  lemma OrderCopyCommit(c: System, n: string, m: string, h: History, term: nat, r1: string, r2: string)
    returns (d: System)
    requires {n, m} <= c.nodes.Keys && {n, m} <= c.disk.Keys && n != m && r1 != r2
    requires Indexed(h) && ResultsStamped(h) && c.nodes[n] == With(h) && c.nodes[m] == EMPTY_NODE
    requires forall i :: 0 <= i < |h| ==> h[i].request != r1 && h[i].request != r2
    requires (|h| + 1, term) !in c.minted && (|h| + 2, term) !in c.minted
    ensures var g := h + [Made(term, |h| + 1, r1), Made(term, |h| + 2, r2)];
            && Leads(c, d) && d.disk == c.disk
            && d.nodes == c.nodes[n := With(g)][m := With(g)][n := ApplyThrough(With(g), |g|)]
            && forall k :: 0 <= k < |g| ==> StampAt(g, k) in d.entries
  {
    var g := h + [Made(term, |h| + 1, r1), Made(term, |h| + 2, r2)];
    var c1 := OrderTwo(c, n, h, term, r1, r2);
    var c2 := CopyAll(c1, n, m, g);
    LeadsOn(c, c1, c2);
    d := CommitStep(c2, n);
    LeadsOn(c, c2, d);
  }

  // ---------------------------------------------------------------- the nodes

  const X := Made(1, 1, "x")
  const V := Made(1, 2, "v")
  const Y := Made(2, 1, "y")
  const Z := Made(4, 2, "z")
  const U := Made(4, 3, "u")

  /** Any four nodes. */
  datatype Names = Names(a: string, b: string, c: string, d: string) {
    predicate Distinct() {
      a != b && a != c && a != d && b != c && b != d && c != d
    }

    function All(): set<string> {
      {a, b, c, d}
    }
  }

  /** The four nodes and their states. */
  predicate Are(w: Names, nodes: map<string, NodeState>, a: NodeState, b: NodeState, c: NodeState, d: NodeState) {
    nodes.Keys == w.All() && nodes[w.a] == a && nodes[w.b] == b && nodes[w.c] == c && nodes[w.d] == d
  }

  function Start(w: Names): System {
    var idle := map n | n in w.All() :: EMPTY_NODE;
    System(idle, idle, {}, {}, map[])
  }

  lemma Started(w: Names, c: System)
    requires w.Distinct()
    requires Leads(Start(w), c)
    ensures Reachable(c)
  {
    assert Init(Start(w)) && Run(Start(w), [], Start(w));
    ReachOn(Start(w), c);
  }

  /** n orders two requests in a row. */
  lemma OrderTwo(c: System, n: string, h: History, term: nat, r1: string, r2: string) returns (d: System)
    requires n in c.nodes && n in c.disk && c.nodes[n] == With(h) && r1 != r2
    requires forall i :: 0 <= i < |h| ==> h[i].request != r1 && h[i].request != r2
    requires (|h| + 1, term) !in c.minted && (|h| + 2, term) !in c.minted
    ensures Leads(c, d)
    ensures d.nodes == c.nodes[n := With(h + [Made(term, |h| + 1, r1), Made(term, |h| + 2, r2)])]
    ensures d.disk == c.disk && d.minted.Keys == c.minted.Keys + {(|h| + 1, term), (|h| + 2, term)}
  {
    var e, f := Made(term, |h| + 1, r1), Made(term, |h| + 2, r2);
    var c1 := OrderStep(c, n, h, term, r1);
    d := OrderStep(c1, n, h + [e], term, r2);
    assert h + [e] + [f] == h + [e, f];
    LeadsOn(c, c1, d);
  }

  /** In term 1, a orders x and v. */
  lemma OrderedXV(w: Names) returns (c: System)
    requires w.Distinct()
    ensures Leads(Start(w), c) && c.disk.Keys == w.All() && c.minted.Keys == {(1, 1), (2, 1)}
    ensures Are(w, c.nodes, With([X, V]), EMPTY_NODE, EMPTY_NODE, EMPTY_NODE)
  {
    c := OrderTwo(Start(w), w.a, [], 1, "x", "v");
    assert [] + [X, V] == [X, V];
  }

  // -------------------------------------------------- an anchor from another moment

  /** Both entries reach c. */
  lemma CopiedToC(w: Names, c: System) returns (d: System)
    requires w.Distinct()
    requires c.disk.Keys == w.All() && Are(w, c.nodes, With([X, V]), EMPTY_NODE, EMPTY_NODE, EMPTY_NODE)
    ensures Leads(c, d) && d.disk.Keys == w.All() && d.minted == c.minted
    ensures Are(w, d.nodes, With([X, V]), EMPTY_NODE, With([X, V]), EMPTY_NODE)
  {
    d := CopyAll(c, w.a, w.c, [X, V]);
  }

  /** In term 2, b orders y, and its copy replaces x and v on a. */
  lemma ReplacedOnA(w: Names, c: System) returns (d: System)
    requires w.Distinct()
    requires c.disk.Keys == w.All() && (1, 2) !in c.minted
    requires Are(w, c.nodes, With([X, V]), EMPTY_NODE, With([X, V]), EMPTY_NODE)
    ensures Leads(c, d) && Are(w, d.nodes, With([Y]), With([Y]), With([X, V]), EMPTY_NODE)
  {
    d := OrderReplace(c, w.b, w.a, [X, V]);
  }

  /** n orders y on an empty log, and its copy replaces the uncommitted log of m. */
  lemma OrderReplace(c: System, n: string, m: string, h: History) returns (d: System)
    requires {n, m} <= c.nodes.Keys && {n, m} <= c.disk.Keys && n != m && (1, 2) !in c.minted
    requires c.nodes[n] == EMPTY_NODE && c.nodes[m] == With(h) && h != [] && h[0].term != 2
    ensures Leads(c, d) && d.nodes == c.nodes[n := With([Y])][m := With([Y])] && d.disk == c.disk
    ensures d.minted == c.minted[(1, 2) := [Y]]
  {
    var c1 := OrderStep(c, n, [], 2, "y");
    assert [] + [Y] == [Y];
    d := CopyStep(c1, n, m, 0);
    ReplacesAll(h);
    LeadsOn(c, c1, d);
  }

  lemma ReplacesAll(h: History)
    requires h != [] && h[0].term != 2
    ensures AppendMsg(With(h), StampAt([Y], 0)) == With([Y])
  {
    assert Wire(Y) == Y;
    assert h[..0] + [Y] == [Y];
    assert RolledBack(map[], 0) == map[];
  }

  /** Why an entry and its anchor must come from one log state. replicateDomainQuorum takes the
      entry when the write is ordered and reads the term before it later
      (internal/cdraft/rpc_node.go:2294-2301). b is elected for term 2 at `early`, while only a
      holds anything. Then c catches up with a, which holds the entry in `held`; by the state
      `later` b's entry has replaced a's log, and the anchor that a reads there belongs to the
      replacement. The leader hands this message to its own Replicate, whose stale-term check lets
      it pass although the entry's term is old, because the sender is the receiver's current Domain
      Leader. a accepts it, and then a and c have the same term at index 2 over different
      entries. */
  lemma TornStampBreaksMatching(w: Names) returns (early: System, held: System, later: System, m: Stamped)
    requires w.Distinct()
    ensures Reachable(early) && Leads(early, held) && Leads(held, later) && Reachable(later)
    ensures CanLead(w, early, w.b, {w.b, w.c, w.d})
    ensures {w.a, w.c} <= held.nodes.Keys && {w.a, w.c} <= later.nodes.Keys
    ensures |held.nodes[w.a].hist| == 2 && m.entry == held.nodes[w.a].hist[1]
    ensures m.prevIndex == 1 && m.prevTerm == TermAt(later.nodes[w.a].hist, 1)
    ensures Acks(later.nodes[w.a], m) && !Matching(AppendMsg(later.nodes[w.a], m).hist, later.nodes[w.c].hist)
  {
    early, held, later := TornRun(w);
    OthersElect(w, early, With([X, V]), w.b);
    m := Stamped(V, 1, 2);
    Tears();
  }

  lemma TornRun(w: Names) returns (early: System, held: System, later: System)
    requires w.Distinct()
    ensures Reachable(early) && Leads(early, held) && Leads(held, later) && Reachable(later)
    ensures Are(w, early.nodes, With([X, V]), EMPTY_NODE, EMPTY_NODE, EMPTY_NODE)
    ensures Are(w, held.nodes, With([X, V]), EMPTY_NODE, With([X, V]), EMPTY_NODE)
    ensures Are(w, later.nodes, With([Y]), With([Y]), With([X, V]), EMPTY_NODE)
  {
    early := OrderedXV(w);
    Started(w, early);
    held := CopiedToC(w, early);
    later := ReplacedOnA(w, held);
    ReachOn(early, held);
    ReachOn(held, later);
  }

  lemma Tears()
    ensures var m := Stamped(V, 1, 2);
            Acks(With([Y]), m) && !Matching(AppendMsg(With([Y]), m).hist, [X, V])
  {
    var torn, whole := AppendMsg(With([Y]), Stamped(V, 1, 2)).hist, [X, V];
    assert torn == [Y, V];
    assert torn[1].term == whole[1].term;
    assert torn[..2][0] != whole[..2][0];
  }

  /** While only a holds anything, each of the others can be elected by the three of them. */
  lemma OthersElect(w: Names, c: System, a: NodeState, winner: string)
    requires w.Distinct() && Are(w, c.nodes, a, EMPTY_NODE, EMPTY_NODE, EMPTY_NODE)
    requires winner in {w.b, w.c, w.d}
    ensures CanLead(w, c, winner, {w.b, w.c, w.d})
  {
    Leadable(w, c, winner, {w.b, w.c, w.d});
  }

  // ------------------------------------------------------ a position ordered twice

  lemma WinMove(r: Realm, n: string, term: nat) returns (q: Realm)
    requires n in r.sys.nodes && term !in r.won
    ensures Comes(r, q) && q == r.(reigns := r.reigns[n := Reign(term, map[])], won := r.won + {term})
  {
    q := Make(r, Win(n, term));
    ComesMove(r, Win(n, term));
  }

  lemma OrderMove(r: Realm, n: string, h: History, request: string) returns (q: Realm)
    requires n in r.sys.nodes && n in r.sys.disk && r.sys.nodes[n] == With(h) && n in r.reigns
    requires forall i :: 0 <= i < |h| ==> h[i].request != request
    requires |h| + 1 !in r.reigns[n].stamps
    ensures var g := h + [Made(r.reigns[n].term, |h| + 1, request)];
            && Comes(r, q) && q.won == r.won && q.reigns == r.reigns[n := Recorded(r.reigns[n], g)]
            && q.sys.nodes == r.sys.nodes[n := With(g)] && q.sys.disk == r.sys.disk
  {
    var m := Act(Order(n, r.reigns[n].term, Put(request), false));
    Orders(h, r.reigns[n].term, request);
    q := Make(r, m);
    ComesMove(r, m);
  }

  lemma CopyMove(r: Realm, from: string, n: string, i: nat) returns (q: Realm)
    requires {from, n} <= r.sys.nodes.Keys && {from, n} <= r.sys.disk.Keys
    requires r.sys.nodes[from].floor <= i < |r.sys.nodes[from].hist|
    ensures Comes(r, q) && q.won == r.won && q.reigns == r.reigns && q.sys.disk == r.sys.disk
    ensures q.sys.nodes == r.sys.nodes[n := AppendMsg(r.sys.nodes[n], StampAt(r.sys.nodes[from].hist, i))]
  {
    var m := StampAt(r.sys.nodes[from].hist, i);
    var sent := Make(r, Act(Send(from, i)));
    ComesMove(r, Act(Send(from, i)));
    q := Make(sent, Act(Deliver(n, m)));
    ComesMove(sent, Act(Deliver(n, m)));
    ComesOn(r, sent, q);
  }

  function Dawn(w: Names): Realm {
    Realm(Start(w), map[], {})
  }

  /** a reigns in term 1 and has ordered x and v. */
  lemma FirstReign(w: Names) returns (r: Realm)
    requires w.Distinct()
    ensures Comes(Dawn(w), r) && r.won == {1} && r.reigns.Keys == {w.a} && r.sys.disk.Keys == w.All()
    ensures r.reigns[w.a].term == 1 && r.reigns[w.a].stamps.Keys == {1, 2}
    ensures r.reigns[w.a].stamps[2] == StampAt([X, V], 1)
    ensures Are(w, r.sys.nodes, With([X, V]), EMPTY_NODE, EMPTY_NODE, EMPTY_NODE)
  {
    var r1 := WinMove(Dawn(w), w.a, 1);
    r := OrderTwice(r1, w.a, "x", "v");
    ComesOn(Dawn(w), r1, r);
  }

  /** A leader that holds nothing and has ordered nothing orders two requests. */
  lemma OrderTwice(r: Realm, n: string, r1: string, r2: string) returns (q: Realm)
    requires n in r.sys.nodes && n in r.sys.disk && r.sys.nodes[n] == EMPTY_NODE && r1 != r2
    requires n in r.reigns && r.reigns[n].stamps == map[]
    ensures var t := r.reigns[n].term;
            var g := [Made(t, 1, r1), Made(t, 2, r2)];
            && Comes(r, q) && q.won == r.won && q.sys.disk == r.sys.disk && q.sys.nodes == r.sys.nodes[n := With(g)]
            && q.reigns.Keys == r.reigns.Keys && q.reigns[n].term == t
            && q.reigns[n].stamps.Keys == {1, 2} && q.reigns[n].stamps[2] == StampAt(g, 1)
  {
    var e, f := Made(r.reigns[n].term, 1, r1), Made(r.reigns[n].term, 2, r2);
    assert With([]) == EMPTY_NODE;
    var p := OrderMove(r, n, [], r1);
    assert [] + [e] == [e];
    q := OrderMove(p, n, [e], r2);
    assert [e] + [f] == [e, f];
    ComesOn(r, p, q);
  }

  /** c takes both entries. */
  lemma CopiedReign(w: Names, r: Realm) returns (q: Realm)
    requires w.Distinct() && r.sys.disk.Keys == w.All()
    requires Are(w, r.sys.nodes, With([X, V]), EMPTY_NODE, EMPTY_NODE, EMPTY_NODE)
    ensures Comes(r, q) && q.won == r.won && q.reigns == r.reigns && q.sys.disk == r.sys.disk
    ensures Are(w, q.sys.nodes, With([X, V]), EMPTY_NODE, With([X, V]), EMPTY_NODE)
  {
    var h := [X, V];
    assert With(h[..0]) == EMPTY_NODE && h[..2] == h;
    AppendsNext(h, 0);
    AppendsNext(h, 1);
    var r1 := CopyMove(r, w.a, w.c, 0);
    q := CopyMove(r1, w.a, w.c, 1);
    ComesOn(r, r1, q);
  }

  /** b wins term 2 and orders y, whose copy replaces the log of a, who goes on reigning. */
  lemma SecondReign(w: Names, r: Realm) returns (q: Realm)
    requires w.Distinct() && r.sys.disk.Keys == w.All() && r.won == {1} && r.reigns.Keys == {w.a}
    requires Are(w, r.sys.nodes, With([X, V]), EMPTY_NODE, With([X, V]), EMPTY_NODE)
    ensures Comes(r, q) && w.a in q.reigns && q.reigns[w.a] == r.reigns[w.a] && q.sys.disk.Keys == w.All()
    ensures Are(w, q.sys.nodes, With([Y]), With([Y]), With([X, V]), EMPTY_NODE)
  {
    var r1 := WinMove(r, w.b, 2);
    var r2 := OrderMove(r1, w.b, [], "y");
    assert [] + [Y] == [Y];
    ComesOn(r, r1, r2);
    q := CopyMove(r2, w.b, w.a, 0);
    ReplacesAll([X, V]);
    ComesOn(r, r2, q);
  }

  /** One winner per term is not enough for Log Matching. a wins term 1 and orders x and v; b, who can
      be elected at `early`, wins term 2 and orders y; its copy replaces a's log, but an entry of a
      higher term passes Replicate without deposing anyone (internal/cdraft/rpc_node.go:1411-1428),
      so a still reigns in term 1 and accepts a new write. It gives index 2 a second entry in its
      term, and no longer matches c, who holds the first. All moves before are careful; this one
      is permitted, and not fresh. */
  lemma ReorderBreaksMatching(w: Names) returns (early: Realm, q: Realm, m: Move)
    requires w.Distinct()
    ensures Reached(early) && CanLead(w, early.sys, w.b, {w.b, w.c, w.d}) && Comes(early, q) && Reached(q)
    ensures May(q, m) && Appends(q, m) && !Fresh(q.reigns[m.s.n], Extended(q, m))
    ensures w.c in q.sys.nodes && !Matching(Extended(q, m), q.sys.nodes[w.c].hist)
  {
    early, q := TwoReigns(w);
    OthersElect(w, early.sys, With([X, V]), w.b);
    m := Act(Order(w.a, 1, Put("t"), false));
    OrdersAgain(w, q, m);
  }

  lemma TwoReigns(w: Names) returns (early: Realm, q: Realm)
    requires w.Distinct()
    ensures Reached(early) && Comes(early, q) && Reached(q)
    ensures Are(w, early.sys.nodes, With([X, V]), EMPTY_NODE, EMPTY_NODE, EMPTY_NODE)
    ensures Are(w, q.sys.nodes, With([Y]), With([Y]), With([X, V]), EMPTY_NODE) && q.sys.disk.Keys == w.All()
    ensures w.a in q.reigns && q.reigns[w.a].term == 1
    ensures 2 in q.reigns[w.a].stamps && q.reigns[w.a].stamps[2] == StampAt([X, V], 1)
  {
    early := FirstReign(w);
    var copied := CopiedReign(w, early);
    q := SecondReign(w, copied);
    ComesOn(early, copied, q);
    ComesOn(Dawn(w), early, q);
    Dawned(w, early);
    Dawned(w, q);
  }

  lemma Dawned(w: Names, r: Realm)
    requires w.Distinct() && Comes(Dawn(w), r)
    ensures Reached(r)
  {
    assert Begins(Dawn(w));
    ReachedOn(Dawn(w), r);
  }

  lemma OrdersAgain(w: Names, q: Realm, m: Move)
    requires Reached(q) && w.Distinct() && w.a in q.reigns && q.sys.disk.Keys == w.All()
    requires Are(w, q.sys.nodes, With([Y]), With([Y]), With([X, V]), EMPTY_NODE)
    requires q.reigns[w.a].term == 1 && 2 in q.reigns[w.a].stamps && q.reigns[w.a].stamps[2] == StampAt([X, V], 1)
    requires m == Act(Order(w.a, 1, Put("t"), false))
    ensures May(q, m) && Appends(q, m) && !Fresh(q.reigns[w.a], Extended(q, m))
    ensures !Matching(Extended(q, m), q.sys.nodes[w.c].hist)
  {
    Orders([Y], 1, "t");
    assert [Y] + [Made(1, 2, "t")] == [Y, Made(1, 2, "t")];
    assert StampAt([X, V], 1).entry.request == "v";
    OrderMatchesIffFresh(q, m, w.c);
  }

  // ----------------------------------------------------- a receiver that is too long

  /** Why a backfill can ask for a tail that ends before it begins, on which collectTailEntries
      panics. a leads in term 1 and orders three requests; c, who can be elected at `early`, leads in
      term 2 and orders two. a has no quorum mark yet and rejects the second of them on its anchor,
      so replicateDomainQuorum collects the tail from a's last index, which lies beyond the
      entry (internal/cdraft/rpc_node.go:2325-2340). */
  lemma TailBeyondBarrier(w: Names) returns (early: System, c: System, m: Stamped)
    requires w.Distinct()
    ensures Reachable(early) && CanLead(w, early, w.c, {w.b, w.c, w.d}) && Leads(early, c) && Reachable(c)
    ensures w.a in c.nodes && w.c in c.nodes && |c.nodes[w.c].hist| == 2 && m == StampAt(c.nodes[w.c].hist, 1)
    ensures var r := c.nodes[w.a];
            && r.marks == map[] && |r.hist| > m.entry.index
            && AppendOutcome(r, m.entry, m.prevIndex, m.prevTerm) == PrefixMismatch
  {
    early, c := LongAndShort(w);
    OthersElect(w, early, With([X, V, T]), w.c);
    m := StampAt([Y, S], 1);
  }

  const T := Made(1, 3, "t")
  const S := Made(2, 2, "s")

  lemma LongAndShort(w: Names) returns (early: System, c: System)
    requires w.Distinct()
    ensures Reachable(early) && Leads(early, c) && Reachable(c)
    ensures Are(w, early.nodes, With([X, V, T]), EMPTY_NODE, EMPTY_NODE, EMPTY_NODE)
    ensures Are(w, c.nodes, With([X, V, T]), EMPTY_NODE, With([Y, S]), EMPTY_NODE)
  {
    early := OrderedXVT(w);
    Started(w, early);
    c := OrderTwo(early, w.c, [], 2, "y", "s");
    assert [] + [Y, S] == [Y, S];
    ReachOn(early, c);
  }

  /** In term 1, a orders x, v and t. */
  lemma OrderedXVT(w: Names) returns (c: System)
    requires w.Distinct()
    ensures Leads(Start(w), c) && c.disk.Keys == w.All() && c.minted.Keys == {(1, 1), (2, 1), (3, 1)}
    ensures Are(w, c.nodes, With([X, V, T]), EMPTY_NODE, EMPTY_NODE, EMPTY_NODE)
  {
    var two := OrderedXV(w);
    c := OrderStep(two, w.a, [X, V], 1, "t");
    assert [X, V] + [T] == [X, V, T];
    LeadsOn(Start(w), two, c);
  }

  // ------------------------------------------- two certified histories in one run

  /** Every node is a domain of its own. */
  function OwnDomains(w: Names): map<string, set<string>> {
    Backers(w.All())
  }

  function Backers(domains: set<string>): map<string, set<string>> {
    map d | d in domains :: {d}
  }

  function Leaders(domains: set<string>): map<string, string> {
    map d | d in domains :: d
  }

  /** The logs of c let `winner` become Global Leader with the votes of the three given domains. */
  ghost predicate CanLead(w: Names, c: System, winner: string, backing: set<string>) {
    Electable(c, OwnDomains(w), Backers(backing), Leaders(backing), winner)
  }

  lemma Leadable(w: Names, c: System, winner: string, backing: set<string>)
    requires w.Distinct()
    requires |backing| == 3 && backing <= w.All() == c.nodes.Keys && winner in backing
    requires forall n :: n in backing ==> Summaries(c)[winner].AtLeast(Summaries(c)[n])
    ensures CanLead(w, c, winner, backing)
  {
    Backs(w.All(), Summaries(c), winner, backing);
  }

  lemma Backs(all: set<string>, logs: map<string, LogSummary>, winner: string, backing: set<string>)
    requires |all| == 4 && |backing| == 3 && backing <= all <= logs.Keys && winner in backing
    requires forall n :: n in backing ==> logs[winner].AtLeast(logs[n])
    ensures ElectionCertificate(Backers(all), Backers(backing), Leaders(backing), winner, logs)
  {
    var members, backers, leader := Backers(all), Backers(backing), Leaders(backing);
    assert members.Keys == all && backers.Keys == backing == leader.Keys;
    assert |members.Keys| == |members| && |backers.Keys| == |backers|;
    forall d | d in backers ensures backers[d] <= members[d] && |backers[d]| >= Majority(|members[d]|) {
      assert backers[d] == members[d] == {d};
    }
    forall d, n | d in backers && n in backers[d] ensures n in logs && logs[leader[d]].AtLeast(logs[n]) {
      assert n == d == leader[d];
    }
  }

  lemma CertifiedBy(w: Names, c: System, h: History, d1: string, d2: string)
    requires w.Distinct()
    requires {d1, d2} <= w.All() == c.nodes.Keys && d1 != d2
    requires forall n :: n in {d1, d2} ==> c.nodes[n].hist == h
    ensures Certified(c, OwnDomains(w), h, d1, d2)
  {
    assert h[..|h|] == h;
    forall d | d in {d1, d2} ensures Holders(c.nodes, OwnDomains(w)[d], h) == {d} {
      assert c.nodes[d].hist[..|h|] == h;
    }
  }

  /** In term 2, c orders y, unaware of x and v. */
  lemma OrderedY(w: Names, c: System) returns (d: System)
    requires w.Distinct()
    requires c.disk.Keys == w.All() && c.minted.Keys == {(1, 1), (2, 1)}
    requires Are(w, c.nodes, With([X, V]), EMPTY_NODE, EMPTY_NODE, EMPTY_NODE)
    ensures Leads(c, d) && d.disk.Keys == w.All() && d.minted.Keys == {(1, 1), (2, 1), (1, 2)}
    ensures Are(w, d.nodes, With([X, V]), EMPTY_NODE, With([Y]), EMPTY_NODE)
  {
    d := OrderStep(c, w.c, [], 2, "y");
    assert [] + [Y] == [Y];
  }

  const A2 := ApplyThrough(With([X, V]), 2)
  const C3 := ApplyThrough(With([Y, Z, U]), 3)

  /** In term 3, a brings x and v to b, commits them, and saves. */
  lemma CommittedXV(w: Names, c: System) returns (d: System)
    requires w.Distinct()
    requires c.disk.Keys == w.All() && Are(w, c.nodes, With([X, V]), EMPTY_NODE, With([Y]), EMPTY_NODE)
    ensures Leads(c, d) && d.disk.Keys == w.All() && d.disk[w.a] == A2 && d.minted == c.minted
    ensures Are(w, d.nodes, A2, With([X, V]), With([Y]), EMPTY_NODE)
  {
    d := CopyCommitSave(c, w.a, w.b, [X, V]);
  }

  /** In term 4, c orders z and u after y, brings all three to d, and commits them. */
  lemma CommittedYZU(w: Names, c: System) returns (d: System)
    requires w.Distinct()
    requires c.disk.Keys == w.All() && c.minted.Keys == {(1, 1), (2, 1), (1, 2)}
    requires Are(w, c.nodes, A2, With([X, V]), With([Y]), EMPTY_NODE)
    ensures Leads(c, d) && d.disk == c.disk && StampAt([Y, Z, U], 1) in d.entries
    ensures Are(w, d.nodes, A2, With([X, V]), C3, With([Y, Z, U]))
  {
    d := OrderCopyCommit(c, w.c, w.d, [Y], 4, "z", "u");
    assert [Y] + [Z, U] == [Y, Z, U];
  }

  /** The stations of the run: x and v known only to a; y ordered by c; x and v committed by a; y, z
      and u committed by c. */
  lemma TwoCertified(w: Names) returns (s1: System, s2: System, s3: System, s4: System)
    requires w.Distinct()
    ensures Reachable(s1) && Leads(s1, s2) && Leads(s2, s3) && Leads(s3, s4) && Reachable(s4)
    ensures Are(w, s1.nodes, With([X, V]), EMPTY_NODE, EMPTY_NODE, EMPTY_NODE)
    ensures Are(w, s2.nodes, With([X, V]), EMPTY_NODE, With([Y]), EMPTY_NODE)
    ensures Are(w, s3.nodes, A2, With([X, V]), With([Y]), EMPTY_NODE)
    ensures Are(w, s4.nodes, A2, With([X, V]), C3, With([Y, Z, U])) && s4.disk.Keys == w.All() && s4.disk[w.a] == A2
    ensures StampAt([Y, Z, U], 1) in s4.entries
    ensures w.a in s3.nodes && s3.nodes[w.a] == A2 && A2.commit == 2
    ensures w.c in s4.nodes && w.c in s4.disk && s4.nodes[w.c] == C3 && C3.commit == 3
  {
    Applied();
    s1 := OrderedXV(w);
    Started(w, s1);
    s2 := OrderedY(w, s1);
    s3 := CommittedXV(w, s2);
    s4 := CommittedYZU(w, s3);
    LeadsOn(Start(w), s1, s2);
    LeadsOn(Start(w), s2, s3);
    LeadsOn(Start(w), s3, s4);
    Started(w, s4);
  }

  lemma LeadsInTerm2(w: Names, c: System)
    requires w.Distinct()
    requires Are(w, c.nodes, With([X, V]), EMPTY_NODE, EMPTY_NODE, EMPTY_NODE)
    ensures CanLead(w, c, w.c, {w.b, w.c, w.d})
  {
    Leadable(w, c, w.c, {w.b, w.c, w.d});
  }

  lemma LeadsInTerm3(w: Names, c: System)
    requires w.Distinct()
    requires Are(w, c.nodes, With([X, V]), EMPTY_NODE, With([Y]), EMPTY_NODE)
    ensures CanLead(w, c, w.a, {w.a, w.b, w.d})
  {
    Leadable(w, c, w.a, {w.a, w.b, w.d});
  }

  lemma LeadsInTerm4(w: Names, c: System)
    requires w.Distinct()
    requires Are(w, c.nodes, A2, With([X, V]), With([Y]), EMPTY_NODE)
    ensures CanLead(w, c, w.c, {w.b, w.c, w.d})
  {
    Leadable(w, c, w.c, {w.b, w.c, w.d});
  }

  lemma CertifiedXV(w: Names, c: System)
    requires w.Distinct()
    requires Are(w, c.nodes, A2, With([X, V]), With([Y]), EMPTY_NODE)
    ensures Certified(c, OwnDomains(w), [X, V], w.a, w.b)
  {
    CertifiedBy(w, c, [X, V], w.a, w.b);
  }

  lemma CertifiedYZU(w: Names, c: System)
    requires w.Distinct()
    requires Are(w, c.nodes, A2, With([X, V]), C3, With([Y, Z, U]))
    ensures Certified(c, OwnDomains(w), [Y, Z, U], w.c, w.d)
  {
    CertifiedBy(w, c, [Y, Z, U], w.c, w.d);
  }

  /** What a has applied after x and v, c after y, z and u, and a after installing c's snapshot. */
  lemma Applied()
    ensures A2.hist == [X, V] && A2.commit == 2 && A2.floor == 0 && "x" in A2.sm
    ensures C3.hist == [Y, Z, U] && C3.commit == 3 && C3.floor == 0 && "x" !in C3.sm
    ensures var t := Install(A2, TakeSnapshot(C3)); t.sm == C3.sm && !KeepsCommitted(A2, t)
  {
    var c := With([Y, Z, U]);
    var c1, c2 := ApplyThrough(c, 1), ApplyThrough(c, 2);
    assert c1 == ApplyNext(c) && c2 == ApplyNext(c1) && C3 == ApplyNext(c2);
    assert c1.sm.Keys == {"y"} && c2.sm.Keys == {"y", "z"} && C3.sm.Keys == {"y", "z", "u"};
    var a1 := ApplyThrough(With([X, V]), 1);
    assert a1 == ApplyNext(With([X, V])) && A2 == ApplyNext(a1);
    var t := Install(A2, TakeSnapshot(C3));
    assert [Y, Z, U][..3] == [Y, Z, U];
    assert t.hist[..2][0] == Y && A2.hist[..2][0] == X;
  }

  /** c ships what it committed. */
  lemma Shipped(w: Names, c: System) returns (d: System, p: Snapshot)
    requires w.Distinct()
    requires Are(w, c.nodes, A2, With([X, V]), C3, With([Y, Z, U])) && w.c in c.disk
    ensures Leads(c, d) && d.nodes == c.nodes && d.disk == c.disk
    ensures p in d.snapshots && p == TakeSnapshot(C3)
    ensures w.a in d.nodes && d.nodes[w.a] == A2 && !KeepsCommitted(A2, Install(A2, p))
  {
    Applied();
    assert WellFormed(C3);
    d, p := Do(c, Ship(w.c)), TakeSnapshot(C3);
    LeadsStep(c, Ship(w.c));
  }

  /** The run with its evidence. a leads in term 1 and orders x and v; c leads in term 2 and orders
      y; a leads again in term 3, brings x and v to b and commits them by counting, although they
      are of term 1 (b's stale-term check does not apply to a catch-up, which b replays as its own
      Domain Leader); c leads again in term 4, since y is of a later term than v, and commits y, z
      and u with d. Each of them is elected by three of four domains on up-to-date logs, and two
      domains hold each committed history. */
  lemma BackedCommits(w: Names) returns (s1: System, s2: System, s3: System, s4: System)
    requires w.Distinct()
    ensures Reachable(s1) && Leads(s1, s2) && Leads(s2, s3) && Leads(s3, s4) && Reachable(s4)
    ensures CanLead(w, s1, w.c, {w.b, w.c, w.d}) && CanLead(w, s2, w.a, {w.a, w.b, w.d})
    ensures CanLead(w, s3, w.c, {w.b, w.c, w.d})
    ensures Certified(s3, OwnDomains(w), [X, V], w.a, w.b) && w.a in s3.nodes && s3.nodes[w.a].commit == 2
    ensures Certified(s4, OwnDomains(w), [Y, Z, U], w.c, w.d) && w.c in s4.nodes && s4.nodes[w.c].commit == 3
    ensures s3.nodes[w.a] == A2 && w.c in s4.disk && Are(w, s4.nodes, A2, With([X, V]), C3, With([Y, Z, U]))
  {
    s1, s2, s3, s4 := TwoCertified(w);
    LeadsInTerm2(w, s1);
    LeadsInTerm3(w, s2);
    LeadsInTerm4(w, s3);
    CertifiedXV(w, s3);
    CertifiedYZU(w, s4);
  }

  /** A snapshot install can replace a committed prefix, and the two-domain evidence rule does not
      prevent it: after the backed run, c's snapshot replaces x and v, which a has committed. */
  lemma InstallReplacesCommitted(w: Names)
    returns (s1: System, s2: System, s3: System, s4: System, s5: System, p: Snapshot)
    requires w.Distinct()
    ensures Reachable(s1) && Leads(s1, s2) && Leads(s2, s3) && Leads(s3, s4) && Leads(s4, s5) && Reachable(s5)
    ensures CanLead(w, s1, w.c, {w.b, w.c, w.d}) && CanLead(w, s2, w.a, {w.a, w.b, w.d})
    ensures CanLead(w, s3, w.c, {w.b, w.c, w.d})
    ensures Certified(s3, OwnDomains(w), [X, V], w.a, w.b) && w.a in s3.nodes && s3.nodes[w.a].commit == 2
    ensures Certified(s4, OwnDomains(w), [Y, Z, U], w.c, w.d) && w.c in s4.nodes && s4.nodes[w.c].commit == 3
    ensures p in s5.snapshots && w.a in s5.nodes && s5.nodes[w.a] == s3.nodes[w.a]
    ensures !KeepsCommitted(s5.nodes[w.a], Install(s5.nodes[w.a], p))
  {
    s1, s2, s3, s4 := BackedCommits(w);
    s5, p := Shipped(w, s4);
    ReachOn(s4, s5);
  }

  /** An acknowledgement below the floor vouches for nothing. After the run a has compacted v, which
      it committed; c, whom it follows in term 4, sends z at the same index. a accepts it unseen, so
      its domain reaches quorum and raises the mark over a history that none of its members
      holds. */
  lemma AckedUnseen(w: Names) returns (c: System, s: Step)
    requires w.Distinct()
    ensures Reachable(c) && s.FanOut? && Enabled(c, s)
    ensures Acks(c.nodes[s.n], s.m) && |Acking(c, s.reached, s.m)| >= Majority(|s.members|)
    ensures var after, at := Do(c, s).nodes, (s.m.entry.index, s.m.entry.term);
            && s.domain in after[s.n].marks && after[s.n].marks[s.domain] >= s.m.entry.index
            && at in c.minted && Holders(after, s.members, c.minted[at]) == {}
  {
    var s1, s2, s3, s4 := TwoCertified(w);
    c := Compacted(w, s4);
    ReachOn(s4, c);
    s := AcceptedUnseen(c, w.a, StampAt([Y, Z, U], 1));
  }

  lemma AcceptedUnseen(c: System, n: string, m: Stamped) returns (s: Step)
    requires Reachable(c) && n in c.nodes && n in c.disk && c.nodes[n] == A2.(floor := 2)
    requires m in c.entries && m.entry == Z
    ensures s.FanOut? && Enabled(c, s) && s.n == n && s.m == m
    ensures Acks(c.nodes[n], m) && |Acking(c, s.reached, m)| >= Majority(|s.members|)
    ensures var after, at := Do(c, s).nodes, (m.entry.index, m.entry.term);
            && s.domain in after[n].marks && after[n].marks[s.domain] >= m.entry.index
            && at in c.minted && Holders(after, s.members, c.minted[at]) == {}
  {
    s := FanOut(n, n, {n}, {n}, m);
    Applied();
    assert Acking(c, {n}, m) == {n};
    MarkRaised(c, s);
    ReachableInv(c);
    AckersHold(c, s);
    assert !Vouched(c.nodes[n], m);
  }

  /** a compacts what it has applied. */
  lemma Compacted(w: Names, c: System) returns (d: System)
    requires w.a in c.nodes && w.a in c.disk && c.nodes[w.a] == A2
    ensures Leads(c, d) && d == c.(nodes := c.nodes[w.a := A2.(floor := 2)])
  {
    Applied();
    LocalStep(c, CompactAt(w.a, 2));
    d := Do(c, CompactAt(w.a, 2));
    LeadsStep(c, CompactAt(w.a, 2));
  }

  /** A backfill from the receiver's own last index can be stuck: b holds x and v and has committed
      nothing, c's log is y, z and u, and feeding c's tail above b's last index changes nothing. */
  lemma StuckBackfill(w: Names) returns (c: System)
    requires w.Distinct()
    ensures Reachable(c) && {w.b, w.c} <= c.nodes.Keys
    ensures var s, r := c.nodes[w.c], c.nodes[w.b];
            && s.floor <= |r.hist| < |s.hist| && r.commit == 0
            && Feed(r, TailOf(s, |r.hist|, |s.hist|)) == r && r.hist != s.hist[..|r.hist|]
  {
    var s1, s2, s3, s4 := TwoCertified(w);
    c := s4;
    Backfill.BackfillConverges(c, w.c, w.b, 2, 3);
    assert [Y, Z, U][..2][0] == Y;
  }

  /** An incremental save after such an install is not the whole state: the key x, which a had
      saved, is gone from its state machine but stays in the store. */
  lemma StaleKeySaved(w: Names) returns (d: System, before: string, after: string)
    requires w.Distinct()
    ensures Reachable(d) && w.a in d.nodes && w.a in d.disk
    ensures var disk, mem := Durability.SavedOf(before, d.disk[w.a]), Durability.SavedOf(after, d.nodes[w.a]);
            KvStore.Merged(KvStore.Encode(disk), mem) != KvStore.Encode(mem)
  {
    var s1, s2, s3, s4 := TwoCertified(w);
    var s5, p := Shipped(w, s4);
    before, after := "", "";
    d := Installed(w, s5, p);
    ReachOn(s4, s5);
    ReachOn(s5, d);
    Applied();
    assert "x" in d.disk[w.a].sm && "x" !in d.nodes[w.a].sm;
  }

  lemma Installed(w: Names, c: System, p: Snapshot) returns (d: System)
    requires w.Distinct()
    requires w.a in c.nodes && w.a in c.disk && p in c.snapshots
    ensures Leads(c, d) && d == c.(nodes := c.nodes[w.a := Install(c.nodes[w.a], p)])
  {
    var s := InstallAt(w.a, p);
    LocalStep(c, s);
    d := Do(c, s);
    LeadsStep(c, s);
  }
}
