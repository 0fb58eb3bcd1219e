/** All nodes together, over unbounded runs: ordering, stamped replication, in-domain fan-out,
    commit, compaction, snapshots, persistence and crashes, with messages delayed, reordered,
    duplicated or lost at will. */
module Cluster {
  import opened Types
  import opened Quorums
  import opened NodeLog

  /** A log position: index and term. */
  type Position = (nat, nat)

  /** `entries` and `snapshots` hold everything ever sent. `minted` records, for every position
      an entry was ordered at, the history it was ordered on top of, entry included. */
  datatype System = System(
    nodes: map<string, NodeState>,
    disk: map<string, NodeState>,
    entries: set<Stamped>,
    snapshots: set<Snapshot>,
    minted: map<Position, History>)

  datatype Step =
    | Order(n: string, term: nat, w: WriteRequest, draining: bool)
    | Send(n: string, i: nat)
    | Deliver(n: string, m: Stamped)
    | FanOut(n: string, domain: string, members: set<string>, reached: set<string>, m: Stamped)
    | Commit(n: string, index: nat, term: nat, request: string)
    | CompactAt(n: string, index: nat)
    | Ship(n: string)
    | InstallAt(n: string, p: Snapshot)
    | RaiseMark(n: string, domain: string, index: nat)
    | Persist(n: string)
    | Crash(n: string)

  predicate Init(c: System) {
    && c.disk == c.nodes
    && (forall n :: n in c.nodes ==> c.nodes[n] == EMPTY_NODE)
    && c.entries == {} && c.snapshots == {} && c.minted == map[]
  }

  /** One position is never ordered with two different histories. `Reigns` says what a serving
      Global Leader has to check for that. */
  predicate MintsOnce(minted: map<Position, History>, h: History)
    requires h != []
  {
    var at := (|h|, h[|h| - 1].term);
    at in minted ==> minted[at] == h
  }

  predicate Enabled(c: System, s: Step) {
    && s.n in c.nodes && s.n in c.disk
    && match s
       case Order(n, term, w, draining) =>
         var v := c.nodes[n];
         WriteOutcome(v, term, w, draining).Ordered? ==> MintsOnce(c.minted, Write(v, term, w, draining).hist)
       case Send(n, i) => c.nodes[n].floor <= i < |c.nodes[n].hist|
       case Deliver(n, m) => m in c.entries
       case FanOut(n, domain, members, reached, m) =>
         m in c.entries && n in reached && reached <= members <= c.nodes.Keys
       case Ship(n) => WellFormed(c.nodes[n]) && c.nodes[n].commit > 0
       case InstallAt(n, p) => p in c.snapshots
       case _ => true
  }

  function AppendMsg(s: NodeState, m: Stamped): NodeState {
    Append(s, m.entry, m.prevIndex, m.prevTerm)
  }

  predicate Acks(s: NodeState, m: Stamped) {
    AppendOutcome(s, m.entry, m.prevIndex, m.prevTerm) == Accepted
  }

  function Acking(c: System, members: set<string>, m: Stamped): set<string>
    requires members <= c.nodes.Keys
  {
    set a | a in members && Acks(c.nodes[a], m)
  }

  function RaisedTo(s: NodeState, domain: string, index: nat): NodeState {
    s.(marks := s.marks[domain := Max(if domain in s.marks then s.marks[domain] else 0, index)])
  }

  /** The in-domain fan-out of Replicate as one step, on a domain with the given members of which
      only `reached` get the message. The leader n tries the append first; if it accepts, the
      reached members try it too, and acknowledgements from a majority of all members raise the
      leader's mark for the domain. */
  function FannedOut(c: System, n: string, domain: string, members: set<string>, reached: set<string>, m: Stamped)
    : map<string, NodeState>
    requires n in reached && reached <= members <= c.nodes.Keys
  {
    if !Acks(c.nodes[n], m) then c.nodes
    else
      var quorum := |Acking(c, reached, m)| >= Majority(|members|);
      map a | a in c.nodes :: Member(c.nodes[a], a in reached, a == n && quorum, domain, m)
  }

  function Member(s: NodeState, reached: bool, raise: bool, domain: string, m: Stamped): NodeState {
    var t := if reached then AppendMsg(s, m) else s;
    if raise then RaisedTo(t, domain, m.entry.index) else t
  }

  function Do(c: System, s: Step): System
    requires Enabled(c, s)
  {
    match s
    case Order(n, term, w, draining) => AfterOrder(c, n, term, w, draining)
    case Send(n, i) => c.(entries := c.entries + {StampAt(c.nodes[n].hist, i)})
    case FanOut(n, domain, members, reached, m) => c.(nodes := FannedOut(c, n, domain, members, reached, m))
    case Ship(n) => c.(snapshots := c.snapshots + {TakeSnapshot(c.nodes[n])})
    case Persist(n) => c.(disk := c.disk[n := c.nodes[n]])
    case _ => c.(nodes := c.nodes[s.n := Local(c, s)])
  }

  /** Ordering a request, whether or not the position was minted before. */
  function AfterOrder(c: System, n: string, term: nat, w: WriteRequest, draining: bool): System
    requires n in c.nodes
  {
    var v := c.nodes[n];
    if WriteOutcome(v, term, w, draining).Ordered? then
      var h := Write(v, term, w, draining).hist;
      c.(nodes := c.nodes[n := v.(hist := h)], minted := c.minted[(|h|, h[|h| - 1].term) := h])
    else c
  }

  /** The steps that only change the node they happen on. */
  function Local(c: System, s: Step): NodeState
    requires s.n in c.nodes && s.n in c.disk
  {
    LocalOn(c.nodes[s.n], c.disk[s.n], s)
  }

  function LocalOn(v: NodeState, saved: NodeState, s: Step): NodeState {
    match s
    case Deliver(_, m) => AppendMsg(v, m)
    case Commit(_, index, term, request) => AdvanceCommit(v, index, term, request)
    case CompactAt(_, index) => Compact(v, index)
    case InstallAt(_, p) => Install(v, p)
    case RaiseMark(_, domain, index) => RaisedTo(v, domain, index)
    case Crash(_) => saved
    case _ => v
  }

  /** c leads to d by the given steps. */
  predicate Run(c: System, steps: seq<Step>, d: System)
    decreases |steps|
  {
    if steps == [] then d == c
    else Enabled(c, steps[0]) && Run(Do(c, steps[0]), steps[1..], d)
  }

  // ---------------------------------------------------------------- invariant

  /** Every prefix of h is the history that was minted at the position where it ends. */
  predicate MintedAt(minted: map<Position, History>, h: History, i: nat)
    requires i < |h|
  {
    (i + 1, h[i].term) in minted && minted[(i + 1, h[i].term)] == h[..i + 1]
  }

  predicate Supported(minted: map<Position, History>, h: History) {
    forall i :: 0 <= i < |h| ==> MintedAt(minted, h, i)
  }

  predicate MintOk(minted: map<Position, History>, at: Position, h: History) {
    && |h| == at.0 >= 1 && h[at.0 - 1].term == at.1
    && Indexed(h) && DistinctRequests(h) && ResultsStamped(h) && Supported(minted, h)
  }

  predicate AllMintsOk(minted: map<Position, History>) {
    forall at :: at in minted ==> MintOk(minted, at, minted[at])
  }

  predicate NodeOk(minted: map<Position, History>, s: NodeState) {
    Inv(s) && Supported(minted, s.hist)
  }

  /** The entry and its anchor were read from one minted history. */
  predicate WellStamped(minted: map<Position, History>, m: Stamped) {
    var at := (m.entry.index, m.entry.term);
    && at in minted && |minted[at]| == m.entry.index >= 1
    && minted[at][m.entry.index - 1] == m.entry
    && m.prevIndex == m.entry.index - 1
    && (m.prevIndex > 0 ==> m.prevTerm == minted[at][m.prevIndex - 1].term)
  }

  predicate SnapshotOk(minted: map<Position, History>, p: Snapshot) {
    p.prefix != [] && SnapshotInv(p) && Supported(minted, p.prefix)
  }

  predicate SystemInv(c: System) {
    && c.disk.Keys == c.nodes.Keys
    && AllMintsOk(c.minted)
    && (forall n :: n in c.nodes ==> NodeOk(c.minted, c.nodes[n]))
    && (forall n :: n in c.disk ==> NodeOk(c.minted, c.disk[n]))
    && (forall m :: m in c.entries ==> WellStamped(c.minted, m))
    && (forall p :: p in c.snapshots ==> SnapshotOk(c.minted, p))
  }

  /** Log Matching for two histories: the same term at an index means the same prefix. */
  predicate Matching(g: History, h: History) {
    forall i :: 0 <= i < |g| && i < |h| && g[i].term == h[i].term ==> g[..i + 1] == h[..i + 1]
  }

  lemma SupportedMatch(minted: map<Position, History>, g: History, h: History)
    requires Supported(minted, g) && Supported(minted, h)
    ensures Matching(g, h)
  {
    forall i | 0 <= i < |g| && i < |h| && g[i].term == h[i].term ensures g[..i + 1] == h[..i + 1] {
      assert MintedAt(minted, g, i) && MintedAt(minted, h, i);
    }
  }

  lemma SupportedPrefix(minted: map<Position, History>, h: History, n: nat)
    requires Supported(minted, h) && n <= |h|
    ensures Supported(minted, h[..n])
  {
    forall i | 0 <= i < n ensures MintedAt(minted, h[..n], i) {
      assert MintedAt(minted, h, i);
      assert h[..n][..i + 1] == h[..i + 1];
    }
  }

  /** A supported history is itself minted, so it has what every minted history has. */
  lemma SupportedIsMinted(minted: map<Position, History>, h: History)
    requires AllMintsOk(minted) && Supported(minted, h)
    ensures DistinctRequests(h) && ResultsStamped(h) && Indexed(h)
  {
    if h != [] {
      assert MintedAt(minted, h, |h| - 1);
      assert h[..|h|] == h;
    }
  }

  // ------------------------------------------------------------------- append

  lemma SupportedExtend(minted: map<Position, History>, h: History, e: LogEntry)
    requires Supported(minted, h)
    requires (|h| + 1, e.term) in minted && minted[(|h| + 1, e.term)] == h + [e]
    ensures Supported(minted, h + [e])
  {
    var g := h + [e];
    forall i | 0 <= i < |g| ensures MintedAt(minted, g, i) {
      if i < |h| {
        assert MintedAt(minted, h, i);
        assert g[..i + 1] == h[..i + 1];
      } else {
        assert g[..i + 1] == g;
      }
    }
  }

  /** The prev check alone forces the whole minted prefix: if the receiver holds the anchor's
      term at the anchor's index, everything before the entry is what was minted before it. */
  lemma AnchorForcesPrefix(minted: map<Position, History>, s: NodeState, m: Stamped)
    requires AllMintsOk(minted) && NodeOk(minted, s) && WellStamped(minted, m)
    requires m.entry.index > s.floor && PrefixMatches(s, m.prevIndex, m.prevTerm) && m.entry.index <= |s.hist| + 1
    ensures var h := minted[(m.entry.index, m.entry.term)];
            s.hist[..m.prevIndex] == h[..m.prevIndex] && h == h[..m.prevIndex] + [m.entry]
  {
    var h := minted[(m.entry.index, m.entry.term)];
    assert MintOk(minted, (m.entry.index, m.entry.term), h);
    if m.prevIndex > 0 {
      assert MintedAt(minted, s.hist, m.prevIndex - 1);
      assert MintedAt(minted, h, m.prevIndex - 1);
    }
  }

  lemma AppendSupported(minted: map<Position, History>, s: NodeState, m: Stamped)
    requires AllMintsOk(minted) && NodeOk(minted, s) && WellStamped(minted, m)
    ensures NodeOk(minted, AppendMsg(s, m))
  {
    AppendKeeps(s, m.entry, m.prevIndex, m.prevTerm);
    var t := AppendMsg(s, m);
    if t.hist != s.hist {
      AnchorForcesPrefix(minted, s, m);
      var h := minted[(m.entry.index, m.entry.term)];
      assert MintOk(minted, (m.entry.index, m.entry.term), h);
      assert t.hist == s.hist[..m.prevIndex] + [m.entry];
    }
  }

  /** The entry lies above the floor, or the compacted entry at its index had the same term. */
  predicate Vouched(s: NodeState, m: Stamped) {
    m.entry.index > s.floor || TermAt(s.hist, m.entry.index) == m.entry.term
  }

  /** One acknowledgement vouches for the whole prefix: above the snapshot floor an accepted
      append leaves the receiver with exactly the history the entry was ordered on. Below the
      floor, where the program accepts unseen, it holds exactly when the compacted entry there
      has the same term. */
  lemma AckVouches(minted: map<Position, History>, s: NodeState, m: Stamped)
    requires AllMintsOk(minted) && NodeOk(minted, s) && WellStamped(minted, m)
    requires Acks(s, m)
    ensures var t, i := AppendMsg(s, m), m.entry.index;
            && i <= |t.hist|
            && (t.hist[..i] == minted[(i, m.entry.term)] <==> Vouched(s, m))
  {
    var t, i := AppendMsg(s, m), m.entry.index;
    AppendMeans(s, m.entry, m.prevIndex, m.prevTerm);
    AppendSupported(minted, s, m);
    EndsAt(minted, t.hist, i, m.entry.term);
  }

  /** A supported history runs into a minted one exactly where the terms meet. */
  lemma EndsAt(minted: map<Position, History>, h: History, i: nat, term: nat)
    requires AllMintsOk(minted) && Supported(minted, h)
    requires 1 <= i <= |h| && (i, term) in minted
    ensures h[..i] == minted[(i, term)] <==> h[i - 1].term == term
  {
    assert MintedAt(minted, h, i - 1);
    assert MintOk(minted, (i, term), minted[(i, term)]);
    if h[..i] == minted[(i, term)] {
      assert h[..i][i - 1].term == term;
    }
  }

  /** What a stamp torn from two log states does: an accepted append above the floor reproduces
      the minted history if and only if the stamped term is the one that precedes the entry in
      that history. */
  lemma TornStampExact(minted: map<Position, History>, s: NodeState, m: Stamped, prevTerm: nat)
    requires AllMintsOk(minted) && NodeOk(minted, s) && WellStamped(minted, m)
    requires m.entry.index > 1 && m.entry.index > s.floor
    requires Acks(s, m.(prevTerm := prevTerm))
    ensures var t, i := AppendMsg(s, m.(prevTerm := prevTerm)), m.entry.index;
            t.hist[..i] == minted[(i, m.entry.term)] <==> prevTerm == m.prevTerm
  {
    var torn := m.(prevTerm := prevTerm);
    var t, i, h := AppendMsg(s, torn), m.entry.index, minted[(m.entry.index, m.entry.term)];
    if prevTerm == m.prevTerm {
      AckVouches(minted, s, m);
    } else {
      assert s.hist[m.prevIndex - 1].term == prevTerm;
      assert t.hist[..i][m.prevIndex - 1] == s.hist[m.prevIndex - 1] != h[m.prevIndex - 1];
    }
  }

  // ------------------------------------------------------------- preservation

  lemma GrowMinted(c: System, at: Position, h: History)
    requires SystemInv(c) && (at in c.minted ==> c.minted[at] == h)
    requires MintOk(c.minted[at := h], at, h)
    ensures SystemInv(c.(minted := c.minted[at := h]))
  {
    var minted := c.minted[at := h];
    forall g | Supported(c.minted, g) ensures Supported(minted, g) {
      forall i | 0 <= i < |g| ensures MintedAt(minted, g, i) {
        assert MintedAt(c.minted, g, i);
      }
    }
    forall k | k in minted ensures MintOk(minted, k, minted[k]) {
      if k != at { assert MintOk(c.minted, k, minted[k]); }
    }
    forall m | m in c.entries ensures WellStamped(minted, m) {
      assert WellStamped(c.minted, m);
    }
  }

  lemma SetNodes(c: System, nodes: map<string, NodeState>)
    requires SystemInv(c) && nodes.Keys == c.nodes.Keys
    requires forall n :: n in nodes ==> NodeOk(c.minted, nodes[n])
    ensures SystemInv(c.(nodes := nodes))
  {
  }

  lemma SetNode(c: System, n: string, s: NodeState)
    requires SystemInv(c) && n in c.nodes && NodeOk(c.minted, s)
    ensures SystemInv(c.(nodes := c.nodes[n := s]))
  {
  }

  /** Ordering a new request on a sound node mints a sound history. */
  lemma OrderMints(minted: map<Position, History>, v: NodeState, term: nat, w: WriteRequest, draining: bool)
    requires AllMintsOk(minted) && NodeOk(minted, v)
    requires WriteOutcome(v, term, w, draining).Ordered?
    requires MintsOnce(minted, Write(v, term, w, draining).hist)
    ensures var h := Write(v, term, w, draining).hist;
            var at := (|h|, h[|h| - 1].term);
            MintOk(minted[at := h], at, h) && Inv(v.(hist := h))
  {
    var h := Write(v, term, w, draining).hist;
    var e := h[|h| - 1];
    SupportedIsMinted(minted, v.hist);
    OrderExtends(v, term, w, draining);
    assert h == v.hist + [e];
    MintExtends(minted, v.hist, e);
  }

  lemma MintExtends(minted: map<Position, History>, h: History, e: LogEntry)
    requires Supported(minted, h) && MintsOnce(minted, h + [e])
    ensures Supported(minted[(|h| + 1, e.term) := h + [e]], h + [e])
  {
    var grown := minted[(|h| + 1, e.term) := h + [e]];
    forall i | 0 <= i < |h| ensures MintedAt(grown, h, i) {
      assert MintedAt(minted, h, i);
    }
    SupportedExtend(grown, h, e);
  }

  lemma OrderKeeps(c: System, s: Step)
    requires SystemInv(c) && s.Order? && Enabled(c, s)
    ensures SystemInv(Do(c, s))
  {
    var v := c.nodes[s.n];
    if WriteOutcome(v, s.term, s.w, s.draining).Ordered? {
      OrderMints(c.minted, v, s.term, s.w, s.draining);
      MintNode(c, s.n, Write(v, s.term, s.w, s.draining).hist);
    }
  }

  lemma MintNode(c: System, n: string, h: History)
    requires SystemInv(c) && n in c.nodes && h != []
    requires MintsOnce(c.minted, h) && Inv(c.nodes[n].(hist := h))
    requires var at := (|h|, h[|h| - 1].term); MintOk(c.minted[at := h], at, h)
    ensures var at := (|h|, h[|h| - 1].term);
            SystemInv(c.(nodes := c.nodes[n := c.nodes[n].(hist := h)], minted := c.minted[at := h]))
  {
    var at := (|h|, h[|h| - 1].term);
    GrowMinted(c, at, h);
    SetNode(c.(minted := c.minted[at := h]), n, c.nodes[n].(hist := h));
  }

  lemma InstallSupported(minted: map<Position, History>, s: NodeState, p: Snapshot)
    requires AllMintsOk(minted) && NodeOk(minted, s) && SnapshotOk(minted, p)
    ensures NodeOk(minted, Install(s, p))
  {
    InstallKeeps(s, p);
    var n := |p.prefix|;
    if n > s.commit && HoldsBoundary(s, p) {
      SupportedMatch(minted, s.hist, p.prefix);
      assert s.hist[..n] == p.prefix[..n] == p.prefix;
      assert s.hist == s.hist[..n] + s.hist[n..];
    }
  }

  lemma SendKeeps(c: System, s: Step)
    requires SystemInv(c) && s.Send? && Enabled(c, s)
    ensures SystemInv(Do(c, s))
  {
    var h := c.nodes[s.n].hist;
    SupportedIsMinted(c.minted, h);
    assert MintedAt(c.minted, h, s.i);
    assert Wire(h[s.i]) == h[s.i];
    assert WellStamped(c.minted, StampAt(h, s.i));
  }

  lemma FanOutKeeps(c: System, s: Step)
    requires SystemInv(c) && s.FanOut? && Enabled(c, s)
    ensures SystemInv(Do(c, s))
  {
    var nodes := FannedOut(c, s.n, s.domain, s.members, s.reached, s.m);
    forall a | a in nodes ensures NodeOk(c.minted, nodes[a]) {
      MemberOk(c.minted, c.nodes[a], a in s.reached, s.domain, s.m);
    }
    SetNodes(c, nodes);
  }

  lemma MemberOk(minted: map<Position, History>, s: NodeState, reached: bool, domain: string, m: Stamped)
    requires AllMintsOk(minted) && NodeOk(minted, s) && WellStamped(minted, m)
    ensures forall raise :: NodeOk(minted, Member(s, reached, raise, domain, m))
  {
    AppendSupported(minted, s, m);
  }

  lemma LocalOnKeeps(minted: map<Position, History>, v: NodeState, saved: NodeState, s: Step)
    requires AllMintsOk(minted) && NodeOk(minted, v) && NodeOk(minted, saved)
    requires s.Deliver? ==> WellStamped(minted, s.m)
    requires s.InstallAt? ==> SnapshotOk(minted, s.p)
    ensures NodeOk(minted, LocalOn(v, saved, s))
  {
    match s {
      case Deliver(_, m) => AppendSupported(minted, v, m);
      case Commit(_, index, term, request) => CommitIsAtomic(v, index, term, request);
      case InstallAt(_, p) => InstallSupported(minted, v, p);
      case _ =>
    }
  }

  lemma LocalKeeps(c: System, s: Step)
    requires SystemInv(c) && Enabled(c, s)
    ensures NodeOk(c.minted, Local(c, s))
  {
    LocalOnKeeps(c.minted, c.nodes[s.n], c.disk[s.n], s);
  }

  lemma ShipKeeps(c: System, s: Step)
    requires SystemInv(c) && s.Ship? && Enabled(c, s)
    ensures SystemInv(Do(c, s))
  {
    assert Do(c, s) == c.(snapshots := c.snapshots + {TakeSnapshot(c.nodes[s.n])});
    ShippedOk(c.minted, c.nodes[s.n]);
    AddSnapshot(c, TakeSnapshot(c.nodes[s.n]));
  }

  lemma ShippedOk(minted: map<Position, History>, v: NodeState)
    requires NodeOk(minted, v) && v.commit > 0
    ensures SnapshotOk(minted, TakeSnapshot(v))
  {
    SupportedPrefix(minted, v.hist, v.commit);
  }

  lemma AddSnapshot(c: System, p: Snapshot)
    requires SystemInv(c) && SnapshotOk(c.minted, p)
    ensures SystemInv(c.(snapshots := c.snapshots + {p}))
  {
  }

  predicate IsLocal(s: Step) {
    s.Deliver? || s.Commit? || s.CompactAt? || s.InstallAt? || s.RaiseMark? || s.Crash?
  }

  lemma LocalStep(c: System, s: Step)
    requires Enabled(c, s) && IsLocal(s)
    ensures Do(c, s) == c.(nodes := c.nodes[s.n := Local(c, s)])
  {
  }

  lemma PersistKeeps(c: System, n: string)
    requires SystemInv(c) && n in c.nodes
    ensures SystemInv(c.(disk := c.disk[n := c.nodes[n]]))
  {
  }

  lemma PersistStep(c: System, s: Step)
    requires Enabled(c, s) && s.Persist?
    ensures Do(c, s) == c.(disk := c.disk[s.n := c.nodes[s.n]])
  {
  }

  lemma LocalStepKeeps(c: System, s: Step)
    requires SystemInv(c) && IsLocal(s) && Enabled(c, s)
    ensures SystemInv(Do(c, s))
  {
    LocalStep(c, s);
    LocalKeeps(c, s);
    SetNode(c, s.n, Local(c, s));
  }

  lemma StepKeeps(c: System, s: Step)
    requires SystemInv(c) && Enabled(c, s)
    ensures SystemInv(Do(c, s))
  {
    if s.Order? {
      OrderKeeps(c, s);
    } else if s.Send? {
      SendKeeps(c, s);
    } else if s.FanOut? {
      FanOutKeeps(c, s);
    } else if s.Ship? {
      ShipKeeps(c, s);
    } else if s.Persist? {
      PersistStep(c, s);
      PersistKeeps(c, s.n);
    } else {
      LocalStepKeeps(c, s);
    }
  }

  lemma {:induction false} RunKeeps(c: System, steps: seq<Step>, d: System)
    requires SystemInv(c) && Run(c, steps, d)
    ensures SystemInv(d)
    decreases |steps|
  {
    if steps != [] {
      StepKeeps(c, steps[0]);
      RunKeeps(Do(c, steps[0]), steps[1..], d);
    }
  }

  ghost predicate Reachable(d: System) {
    exists c, steps :: Init(c) && Run(c, steps, d)
  }

  ghost predicate Closed(states: iset<System>) {
    forall c, s :: c in states && Enabled(c, s) ==> Do(c, s) in states
  }

  /** c leads to d by some steps: d is in every set of states that has c and is closed under steps. */
  ghost predicate Leads(c: System, d: System) {
    forall states: iset<System> :: c in states && Closed(states) ==> d in states
  }

  lemma LeadsStep(c: System, s: Step)
    requires Enabled(c, s)
    ensures Leads(c, Do(c, s))
  {
  }

  lemma LeadsOn(c: System, d: System, e: System)
    requires Leads(c, d) && Leads(d, e)
    ensures Leads(c, e)
  {
  }

  ghost predicate RunsTo(c: System, d: System) {
    exists steps :: Run(c, steps, d)
  }

  /** The same as a run of steps. */
  lemma LeadsByRun(c: System, d: System)
    ensures Leads(c, d) <==> RunsTo(c, d)
  {
    var ahead := iset e: System | RunsTo(c, e);
    assert Run(c, [], c);
    forall e, s | e in ahead && Enabled(e, s) ensures Do(e, s) in ahead {
      var steps :| Run(c, steps, e);
      RunStep(e, s);
      RunsChain(c, steps, e, [s], Do(e, s));
    }
    assert Closed(ahead) && c in ahead;
    if RunsTo(c, d) {
      var steps :| Run(c, steps, d);
      RunLeads(c, steps, d);
    }
  }

  lemma RunStep(c: System, s: Step)
    requires Enabled(c, s)
    ensures Run(c, [s], Do(c, s))
  {
    assert [s][1..] == [];
  }

  lemma {:induction false} RunLeads(c: System, steps: seq<Step>, d: System)
    requires Run(c, steps, d)
    ensures Leads(c, d)
    decreases |steps|
  {
    if steps != [] {
      RunLeads(Do(c, steps[0]), steps[1..], d);
      LeadsStep(c, steps[0]);
    }
  }

  lemma ReachOn(c: System, d: System)
    requires Reachable(c) && Leads(c, d)
    ensures Reachable(d)
  {
    var start, xs :| Init(start) && Run(start, xs, c);
    LeadsByRun(c, d);
    var ys :| Run(c, ys, d);
    RunsChain(start, xs, c, ys, d);
  }

  lemma {:induction false} RunsChain(c: System, xs: seq<Step>, d: System, ys: seq<Step>, e: System)
    requires Run(c, xs, d) && Run(d, ys, e)
    ensures Run(c, xs + ys, e)
    decreases |xs|
  {
    if xs == [] {
      assert xs + ys == ys;
    } else {
      assert (xs + ys)[0] == xs[0] && (xs + ys)[1..] == xs[1..] + ys;
      RunsChain(Do(c, xs[0]), xs[1..], d, ys, e);
    }
  }

  lemma ReachableInv(d: System)
    requires Reachable(d)
    ensures SystemInv(d)
  {
    var c, steps :| Init(c) && Run(c, steps, d);
    RunKeeps(c, steps, d);
  }

  // ----------------------------------------------------------------- theorems

  /** Log Matching over every run, across appends, overwrites, compaction, snapshots, crashes:
      two nodes with the same term at an index have the same full history up to it. */
  lemma LogMatching(c: System, a: string, b: string)
    requires Reachable(c) && a in c.nodes && b in c.nodes
    ensures Matching(c.nodes[a].hist, c.nodes[b].hist)
  {
    ReachableInv(c);
    SupportedMatch(c.minted, c.nodes[a].hist, c.nodes[b].hist);
  }

  /** Replay over every run: the state machine is the fold of the node's own full history up to
      its applied index, and the result cache holds the decision of every applied entry. */
  lemma ReplayHolds(c: System, n: string)
    requires Reachable(c) && n in c.nodes
    ensures var s := c.nodes[n];
            && s.floor <= s.commit <= |s.hist| && Indexed(s.hist)
            && s.sm == Replay(s.hist[..s.commit])
            && (forall i :: 0 <= i < s.commit ==>
                  s.hist[i].request in s.results && s.results[s.hist[i].request] == Decision(s.hist[i]))
  {
    ReachableInv(c);
    var s := c.nodes[n];
    assert NodeOk(c.minted, s);
    SupportedIsMinted(c.minted, s.hist);
    forall i | 0 <= i < s.commit
      ensures s.hist[i].request in s.results && s.results[s.hist[i].request] == Decision(s.hist[i])
    {
      ResultsHold(s.hist[..s.commit], i);
      assert s.hist[..s.commit][i] == s.hist[i];
    }
  }

  /** State agreement: the same commit index with the same term there means the same state. */
  lemma StateAgreement(c: System, a: string, b: string)
    requires Reachable(c) && a in c.nodes && b in c.nodes
    requires c.nodes[a].commit == c.nodes[b].commit
    requires TermAt(c.nodes[a].hist, c.nodes[a].commit) == TermAt(c.nodes[b].hist, c.nodes[b].commit)
    ensures c.nodes[a].sm == c.nodes[b].sm
    ensures var k := c.nodes[a].commit;
            k <= |c.nodes[a].hist| && k <= |c.nodes[b].hist| && c.nodes[a].hist[..k] == c.nodes[b].hist[..k]
  {
    ReachableInv(c);
    SupportedMatch(c.minted, c.nodes[a].hist, c.nodes[b].hist);
    assert NodeOk(c.minted, c.nodes[a]) && NodeOk(c.minted, c.nodes[b]);
  }

  /** A commit notice checks only the identity of its top entry; that is enough for the whole
      prefix. After b accepts a notice for an entry a holds, b's state machine is the replay of
      a's history. */
  lemma CommitNoticeSuffices(c: System, a: string, b: string, index: nat)
    requires Reachable(c) && a in c.nodes && b in c.nodes
    requires c.nodes[b].commit < index <= |c.nodes[a].hist|
    requires var e := c.nodes[a].hist[index - 1]; CommitMatches(c.nodes[b], index, e.term, e.request)
    ensures var e := c.nodes[a].hist[index - 1];
            var t := AdvanceCommit(c.nodes[b], index, e.term, e.request);
            && t.commit == index <= |t.hist|
            && t.hist[..index] == c.nodes[a].hist[..index]
            && t.sm == Replay(c.nodes[a].hist[..index])
  {
    ReachableInv(c);
    var e := c.nodes[a].hist[index - 1];
    SupportedMatch(c.minted, c.nodes[a].hist, c.nodes[b].hist);
    assert NodeOk(c.minted, c.nodes[b]);
    CommitIsAtomic(c.nodes[b], index, e.term, e.request);
    assert c.nodes[a].hist[index - 1].term == c.nodes[b].hist[index - 1].term;
  }

  /** Exactly-once ordering: no history, in memory or on disk, contains a request twice. */
  lemma ExactlyOnce(c: System, n: string)
    requires Reachable(c) && n in c.nodes
    ensures DistinctRequests(c.nodes[n].hist)
    ensures n in c.disk && DistinctRequests(c.disk[n].hist)
  {
    ReachableInv(c);
    assert NodeOk(c.minted, c.nodes[n]) && NodeOk(c.minted, c.disk[n]);
    SupportedIsMinted(c.minted, c.nodes[n].hist);
    SupportedIsMinted(c.minted, c.disk[n].hist);
  }

  predicate RetryOf(s: NodeState, i: nat, w: WriteRequest) {
    && i < s.commit && i < |s.hist|
    && s.hist[i].request == w.request && s.hist[i].command == w.command && s.hist[i].origin == w.origin
  }

  /** A retry of a settled request gets the decision of its entry, before and after any
      compaction, and the same one on every node that applied an entry of that term there. */
  lemma RetriesAgree(c: System, a: string, b: string, i: nat, w: WriteRequest, compactAt: nat,
                     ta: nat, tb: nat, da: bool, db: bool)
    requires Reachable(c) && a in c.nodes && b in c.nodes
    requires RetryOf(c.nodes[a], i, w)
    requires i < c.nodes[b].commit && TermAt(c.nodes[b].hist, i + 1) == TermAt(c.nodes[a].hist, i + 1)
    ensures var d := Settled(Decision(c.nodes[a].hist[i]));
            && WriteOutcome(c.nodes[a], ta, w, da) == d
            && WriteOutcome(Compact(c.nodes[a], compactAt), ta, w, da) == d
            && WriteOutcome(c.nodes[b], tb, w, db) == d
  {
    ReachableInv(c);
    var sa, sb := c.nodes[a], c.nodes[b];
    assert NodeOk(c.minted, sa) && NodeOk(c.minted, sb);
    SupportedMatch(c.minted, sa.hist, sb.hist);
    assert sa.hist[..i + 1][i] == sb.hist[..i + 1][i];
    SupportedIsMinted(c.minted, sa.hist);
    SupportedIsMinted(c.minted, sb.hist);
    RetryAnswered(sa, i, ta, w, da);
    RetryAnswered(Compact(sa, compactAt), i, ta, w, da);
    RetryAnswered(sb, i, tb, w, db);
  }

  /** In every reachable state a write ordered as new takes effect once it is committed: the state is
      what the log before it makes, with the client's value at the client's key, and an identical
      retry gets the term, the index and the client's own result. */
  lemma OrderedWriteTakesEffect(c: System, n: string, term: nat, w: WriteRequest, retryTerm: nat, draining: bool)
    requires Reachable(c) && n in c.nodes && WriteOutcome(c.nodes[n], term, w, false).Ordered?
    ensures var s, i := c.nodes[n], |c.nodes[n].hist| + 1;
            var t := AdvanceCommit(Write(s, term, w, false), i, term, w.request);
            && t.commit == i && t.sm == Replay(s.hist)[w.command.key := w.command.value]
            && WriteOutcome(t, retryTerm, w, draining) ==
               Settled(ClientResult(w.request, term, i, w.command.key + "=" + w.command.value,
                                    GlobalResponse, true, ""))
  {
    ReachableInv(c);
    var s := c.nodes[n];
    assert NodeOk(c.minted, s);
    SupportedIsMinted(c.minted, s.hist);
    WriteTakesEffect(s, term, w, retryTerm, draining);
  }

  /** The result a responder domain sends for an entry it holds, ahead of the normal answer. */
  function FastResult(e: LogEntry, responder: string): ClientResult {
    ClientResult(e.request, e.term, e.index, e.result, FastResponse, true, responder)
  }

  /** Fast Return and the normal answer are the same decision: what any node that holds a settled
      entry's term at its index sends ahead is what a retry gets from any node that applied it. */
  lemma FastReturnAgrees(c: System, a: string, b: string, i: nat, w: WriteRequest,
                         responder: string, term: nat, draining: bool)
    requires Reachable(c) && a in c.nodes && b in c.nodes && RetryOf(c.nodes[a], i, w)
    requires i < |c.nodes[b].hist| && c.nodes[b].hist[i].term == c.nodes[a].hist[i].term
    ensures var reply := WriteOutcome(c.nodes[a], term, w, draining);
            reply.Settled? && FastResult(c.nodes[b].hist[i], responder).SameDecision(reply.final)
  {
    ReachableInv(c);
    LogMatching(c, a, b);
    assert c.nodes[a].hist[..i + 1][i] == c.nodes[b].hist[..i + 1][i];
    SupportedIsMinted(c.minted, c.nodes[a].hist);
    RetryAnswered(c.nodes[a], i, term, w, draining);
  }

  /** The members that hold exactly the history h up to its length. */
  function Holders(nodes: map<string, NodeState>, members: set<string>, h: History): set<string>
    requires members <= nodes.Keys
  {
    set a | a in members && |h| <= |nodes[a].hist| && nodes[a].hist[..|h|] == h
  }

  /** Every acknowledging member that compacted the index away had this term there. */
  predicate CompactedAgree(c: System, reached: set<string>, m: Stamped)
    requires reached <= c.nodes.Keys
  {
    forall a :: a in Acking(c, reached, m) ==> Vouched(c.nodes[a], m)
  }

  /** A fan-out acknowledged by a majority of the domain, however many members were unreachable,
      raises the mark, which may jump over indices that were never acknowledged themselves. Every
      acknowledging member then holds the whole history the entry was ordered on if and only if
      those that accepted below their floor, unseen, had compacted an entry of the same term; and
      then that history is held by a majority of the domain. */
  lemma FanOutMajority(c: System, s: Step)
    requires Reachable(c) && s.FanOut? && Enabled(c, s) && Acks(c.nodes[s.n], s.m)
    requires |Acking(c, s.reached, s.m)| >= Majority(|s.members|)
    ensures var after, at := Do(c, s).nodes, (s.m.entry.index, s.m.entry.term);
            && s.domain in after[s.n].marks && after[s.n].marks[s.domain] >= at.0
            && at in c.minted && |c.minted[at]| == at.0
            && var holders := Holders(after, s.members, c.minted[at]);
               && (Acking(c, s.reached, s.m) <= holders <==> CompactedAgree(c, s.reached, s.m))
               && (CompactedAgree(c, s.reached, s.m) ==> |holders| >= Majority(|s.members|))
  {
    ReachableInv(c);
    MarkRaised(c, s);
    var holders := Holders(Do(c, s).nodes, s.members, c.minted[(s.m.entry.index, s.m.entry.term)]);
    AckersHold(c, s);
    if CompactedAgree(c, s.reached, s.m) {
      SubsetSize(Acking(c, s.reached, s.m), holders);
    }
  }

  /** Whom a fan-out touches: nobody, when the leader refuses; otherwise exactly the reached members
      try the append, and only the leader's marks can rise. */
  lemma FanOutReaches(c: System, s: Step, a: string)
    requires s.FanOut? && Enabled(c, s) && a in c.nodes
    ensures var t := Do(c, s).nodes[a];
            && (!Acks(c.nodes[s.n], s.m) ==> t == c.nodes[a])
            && (a !in s.reached ==> t == c.nodes[a])
            && (Acks(c.nodes[s.n], s.m) && a in s.reached && a != s.n ==> t == AppendMsg(c.nodes[a], s.m))
  {
  }

  lemma MarkRaised(c: System, s: Step)
    requires s.FanOut? && Enabled(c, s) && Acks(c.nodes[s.n], s.m)
    requires |Acking(c, s.reached, s.m)| >= Majority(|s.members|)
    ensures var after := Do(c, s).nodes; s.domain in after[s.n].marks && after[s.n].marks[s.domain] >= s.m.entry.index
  {
  }

  lemma AckersHold(c: System, s: Step)
    requires SystemInv(c) && s.FanOut? && Enabled(c, s) && Acks(c.nodes[s.n], s.m)
    ensures var at := (s.m.entry.index, s.m.entry.term);
            && at in c.minted
            && forall a :: a in Acking(c, s.reached, s.m) ==>
                 (a in Holders(Do(c, s).nodes, s.members, c.minted[at]) <==> Vouched(c.nodes[a], s.m))
  {
    assert WellStamped(c.minted, s.m);
    var h := c.minted[(s.m.entry.index, s.m.entry.term)];
    forall a | a in Acking(c, s.reached, s.m)
      ensures a in Holders(Do(c, s).nodes, s.members, h) <==> Vouched(c.nodes[a], s.m)
    {
      AckVouches(c.minted, c.nodes[a], s.m);
      FannedOutHist(c, s, a);
    }
  }

  lemma FannedOutHist(c: System, s: Step, a: string)
    requires s.FanOut? && Enabled(c, s) && Acks(c.nodes[s.n], s.m) && a in s.reached
    ensures Do(c, s).nodes[a].hist == AppendMsg(c.nodes[a], s.m).hist
  {
  }

  // ------------------------------------------------- committed prefixes, snapshots

  predicate KeepsCommitted(s: NodeState, t: NodeState) {
    s.commit <= |s.hist| && s.commit <= t.commit <= |t.hist| && t.hist[..s.commit] == s.hist[..s.commit]
  }

  /** A snapshot install keeps the receiver's committed prefix if and only if the two histories
      have the same term at the receiver's commit index. */
  lemma InstallKeepsCommitted(c: System, n: string, p: Snapshot)
    requires Reachable(c) && n in c.nodes && p in c.snapshots
    ensures var s := c.nodes[n];
            KeepsCommitted(s, Install(s, p)) <==>
            s.commit >= |p.prefix| || TermAt(p.prefix, s.commit) == TermAt(s.hist, s.commit)
  {
    ReachableInv(c);
    var s := c.nodes[n];
    var t := Install(s, p);
    assert NodeOk(c.minted, s) && SnapshotOk(c.minted, p);
    InstallKeeps(s, p);
    SupportedMatch(c.minted, s.hist, p.prefix);
    if s.commit < |p.prefix| {
      assert t.hist[..s.commit] == p.prefix[..s.commit];
      if s.commit > 0 && t.hist[..s.commit] == s.hist[..s.commit] {
        assert p.prefix[..s.commit][s.commit - 1] == s.hist[..s.commit][s.commit - 1];
      }
    }
  }

  /** What an install keeps, for every snapshot in flight that reaches beyond the receiver's commit
      index: a receiver that has the boundary's term at the boundary keeps its whole log and its
      marks; any other is left with exactly the shipped history, and no mark above it. */
  lemma InstallKeepsTail(c: System, n: string, p: Snapshot)
    requires Reachable(c) && n in c.nodes && p in c.snapshots && c.nodes[n].commit < |p.prefix|
    ensures var s, t, k := c.nodes[n], Install(c.nodes[n], p), |p.prefix|;
            && t.floor == t.commit == k && t.sm == p.sm
            && (if k <= |s.hist| && s.hist[k - 1].term == p.prefix[k - 1].term
                then t.hist == s.hist && t.marks == s.marks
                else t.hist == p.prefix && t.marks.Keys == s.marks.Keys &&
                     forall d :: d in s.marks ==> t.marks[d] == if s.marks[d] > k then k else s.marks[d])
  {
    ReachableInv(c);
    var s := c.nodes[n];
    assert NodeOk(c.minted, s) && SnapshotOk(c.minted, p);
    SupportedMatch(c.minted, s.hist, p.prefix);
    assert p.prefix[..|p.prefix|] == p.prefix;
    InstallTail(s, p);
  }

  lemma LocalKeepsCommitted(v: NodeState, saved: NodeState, s: Step)
    requires Inv(v) && !s.InstallAt? && !s.Crash?
    ensures KeepsCommitted(v, LocalOn(v, saved, s))
  {
    match s {
      case Deliver(_, m) => AppendKeeps(v, m.entry, m.prevIndex, m.prevTerm);
      case Commit(_, index, term, request) => CommitIsAtomic(v, index, term, request);
      case _ =>
    }
  }

  lemma FanOutKeepsCommitted(c: System, s: Step, n: string)
    requires SystemInv(c) && Enabled(c, s) && s.FanOut? && n in c.nodes
    ensures KeepsCommitted(c.nodes[n], Do(c, s).nodes[n])
  {
    MemberKeepsCommitted(c.nodes[n], n in s.reached, s.domain, s.m);
  }

  lemma MemberKeepsCommitted(s: NodeState, reached: bool, domain: string, m: Stamped)
    requires Inv(s)
    ensures forall raise :: KeepsCommitted(s, Member(s, reached, raise, domain, m))
  {
    AppendKeeps(s, m.entry, m.prevIndex, m.prevTerm);
  }

  lemma OrderKeepsCommitted(c: System, s: Step, n: string)
    requires SystemInv(c) && Enabled(c, s) && s.Order? && n in c.nodes
    ensures KeepsCommitted(c.nodes[n], Do(c, s).nodes[n])
  {
    assert NodeOk(c.minted, c.nodes[n]);
  }

  /** Besides snapshot installs and crashes, no step changes an entry at or below the commit
      index of any node, or lowers that index. */
  lemma CommittedStable(c: System, s: Step, n: string)
    requires Reachable(c) && Enabled(c, s) && n in c.nodes
    requires !s.InstallAt? && !s.Crash?
    ensures KeepsCommitted(c.nodes[n], Do(c, s).nodes[n])
  {
    ReachableInv(c);
    var v := c.nodes[n];
    assert NodeOk(c.minted, v);
    if s.FanOut? {
      FanOutKeepsCommitted(c, s, n);
    } else if s.Order? {
      OrderKeepsCommitted(c, s, n);
    } else if IsLocal(s) {
      LocalStep(c, s);
      LocalKeepsCommitted(c.nodes[s.n], c.disk[s.n], s);
    }
  }
}
