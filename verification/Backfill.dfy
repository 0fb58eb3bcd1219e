/** Backfill convergence: streaming a sender's tail brings a receiver to the sender's history. */
module Backfill {
  import opened Types
  import opened NodeLog
  import opened Quorums
  import opened Cluster

  /** Where the receiver has committed, up to b, sender and receiver agree. */
  predicate CommittedAgrees(sender: NodeState, receiver: NodeState, b: nat) {
    var k := Min(receiver.commit, b);
    k <= |receiver.hist| && k <= |sender.hist| && sender.hist[..k] == receiver.hist[..k]
  }

  /** The receiver accepts every message of a stream. */
  predicate AcceptsAll(s: NodeState, msgs: seq<Stamped>)
    decreases |msgs|
  {
    msgs == [] || (Acks(s, msgs[0]) && AcceptsAll(AppendMsg(s, msgs[0]), msgs[1..]))
  }

  lemma PrefixMatching(h: History, n: nat)
    requires n <= |h|
    ensures Matching(h, h[..n])
  {
    forall i | 0 <= i < |h| && i < n && h[i].term == h[..n][i].term ensures h[..i + 1] == h[..n][..i + 1] {
    }
  }

  lemma OneMore(g: History, h: History, a: nat)
    requires a < |g| && a < |h| && g[..a] == h[..a] && g[a] == h[a]
    ensures g[..a + 1] == h[..a + 1]
  {
  }

  /** One entry: with the prefix below it in agreement, the append is accepted and extends the
      agreement by one, whatever uncommitted tail the receiver had there. */
  lemma FeedOne(sender: NodeState, receiver: NodeState, a: nat, b: nat)
    requires WellFormed(sender) && WellFormed(receiver) && ResultsStamped(sender.hist)
    requires a < b <= |sender.hist| && a <= |receiver.hist| && sender.hist[..a] == receiver.hist[..a]
    requires Matching(sender.hist, receiver.hist) && CommittedAgrees(sender, receiver, b)
    ensures var m := StampAt(sender.hist, a);
            var t := AppendMsg(receiver, m);
            && Acks(receiver, m) && WellFormed(t) && t.commit == receiver.commit
            && a < |t.hist| && sender.hist[..a + 1] == t.hist[..a + 1]
            && Matching(sender.hist, t.hist) && CommittedAgrees(sender, t, b)
  {
    var m := StampAt(sender.hist, a);
    assert m.entry == sender.hist[a];
    if a > 0 {
      assert sender.hist[..a][a - 1] == receiver.hist[..a][a - 1];
    }
    if a < receiver.commit {
      var k := Min(receiver.commit, b);
      assert sender.hist[..k][a] == receiver.hist[..k][a];
      assert AppendMsg(receiver, m) == receiver;
      OneMore(sender.hist, receiver.hist, a);
    } else {
      FeedBeyond(sender, receiver, a, b);
    }
  }

  /** The same above the receiver's commit index, where a conflicting tail gives way. */
  lemma FeedBeyond(sender: NodeState, receiver: NodeState, a: nat, b: nat)
    requires WellFormed(sender) && WellFormed(receiver) && ResultsStamped(sender.hist)
    requires receiver.commit <= a < b <= |sender.hist| && a <= |receiver.hist| && sender.hist[..a] == receiver.hist[..a]
    requires a > 0 ==> sender.hist[a - 1] == receiver.hist[a - 1]
    requires Matching(sender.hist, receiver.hist) && CommittedAgrees(sender, receiver, b)
    ensures var m := StampAt(sender.hist, a);
            var t := AppendMsg(receiver, m);
            && Acks(receiver, m) && WellFormed(t) && t.commit == receiver.commit
            && a < |t.hist| && sender.hist[..a + 1] == t.hist[..a + 1]
            && Matching(sender.hist, t.hist) && CommittedAgrees(sender, t, b)
  {
    var m := StampAt(sender.hist, a);
    assert m.entry == sender.hist[a];
    var t := AppendMsg(receiver, m);
    if a < |receiver.hist| && SameIdentity(receiver.hist[a], m.entry) {
      assert t == receiver;
    } else {
      assert t.hist == receiver.hist[..a] + [m.entry] == sender.hist[..a + 1];
      PrefixMatching(sender.hist, a + 1);
    }
  }

  lemma {:induction false} FeedAll(sender: NodeState, receiver: NodeState, a: nat, b: nat)
    requires WellFormed(sender) && WellFormed(receiver) && ResultsStamped(sender.hist)
    requires sender.floor <= a <= b <= |sender.hist|
    requires a <= |receiver.hist| && sender.hist[..a] == receiver.hist[..a]
    requires Matching(sender.hist, receiver.hist) && CommittedAgrees(sender, receiver, b)
    ensures var t := Feed(receiver, TailOf(sender, a, b));
            && AcceptsAll(receiver, TailOf(sender, a, b))
            && t.commit == receiver.commit && b <= |t.hist| && t.hist[..b] == sender.hist[..b]
    decreases b - a
  {
    if a < b {
      var tail := TailOf(sender, a, b);
      assert tail[0] == StampAt(sender.hist, a);
      assert tail[1..] == TailOf(sender, a + 1, b);
      FeedOne(sender, receiver, a, b);
      FeedAll(sender, AppendMsg(receiver, tail[0]), a + 1, b);
    }
  }

  lemma {:induction false} FeedKeepsCommitted(s: NodeState, msgs: seq<Stamped>)
    requires WellFormed(s)
    ensures var t := Feed(s, msgs); WellFormed(t) && t.commit == s.commit && t.hist[..s.commit] == s.hist[..s.commit]
    decreases |msgs|
  {
    if msgs != [] && !AppendOutcome(s, msgs[0].entry, msgs[0].prevIndex, msgs[0].prevTerm).CommittedConflict? {
      var t := AppendMsg(s, msgs[0]);
      assert t.hist[..s.commit] == s.hist[..s.commit];
      FeedKeepsCommitted(t, msgs[1..]);
    }
  }

  lemma AgreesAfterwards(sender: NodeState, receiver: NodeState, t: NodeState, b: nat)
    requires b <= |sender.hist| && b <= |t.hist| && t.hist[..b] == sender.hist[..b]
    requires receiver.commit <= |receiver.hist| && receiver.commit <= |t.hist|
    requires t.hist[..receiver.commit] == receiver.hist[..receiver.commit]
    ensures CommittedAgrees(sender, receiver, b)
  {
    var k := Min(receiver.commit, b);
    assert sender.hist[..k] == sender.hist[..b][..k] == t.hist[..k];
    assert receiver.hist[..k] == receiver.hist[..receiver.commit][..k] == t.hist[..k];
  }

  /** Under Log Matching, histories that differ in a term differ in every later term. */
  lemma DifferAbove(g: History, h: History, a: nat, k: nat)
    requires Matching(g, h) && 1 <= a <= k <= |g| && a <= |h| && g[a - 1].term != h[a - 1].term
    ensures k <= |h| ==> g[k - 1].term != h[k - 1].term && g[..k] != h[..k]
  {
    if k <= |h| {
      assert g[..k][a - 1] == g[a - 1] && h[..k][a - 1] == h[a - 1];
    }
  }

  /** Started at an index where the terms differ, a backfill moves nothing: no later anchor can
      match either, since a match would carry the difference down. */
  lemma {:induction false} FeedStuck(sender: NodeState, receiver: NodeState, a: nat, k: nat, b: nat)
    requires WellFormed(sender) && WellFormed(receiver) && Matching(sender.hist, receiver.hist)
    requires 1 <= a <= |receiver.hist| && sender.floor <= a <= k <= b <= |sender.hist|
    requires sender.hist[a - 1].term != receiver.hist[a - 1].term
    ensures Feed(receiver, TailOf(sender, k, b)) == receiver
    decreases b - k
  {
    if k < b {
      var tail := TailOf(sender, k, b);
      var m := StampAt(sender.hist, k);
      assert tail[0] == m && tail[1..] == TailOf(sender, k + 1, b);
      DifferAbove(sender.hist, receiver.hist, a, k);
      FeedStuck(sender, receiver, a, k + 1, b);
    }
  }

  /** Backfill convergence in every reachable system, from any index a the sender still retains
      upward: feeding the collected tail makes both histories equal up to b, whatever uncommitted
      tail the receiver had, if and only if both have the same term at a and the receiver's
      committed entries up to b are the sender's. Then every entry is accepted; if the terms at
      a differ, nothing changes at all. */
  lemma BackfillConverges(c: System, s: string, r: string, a: nat, b: nat)
    requires Reachable(c) && s in c.nodes && r in c.nodes
    requires c.nodes[s].floor <= a <= b <= |c.nodes[s].hist| && a <= |c.nodes[r].hist|
    ensures var v, w := c.nodes[s], c.nodes[r];
            var tail, same := TailOf(v, a, b), TermAt(v.hist, a) == TermAt(w.hist, a);
            var t := Feed(w, tail);
            && |tail| == b - a && t.commit == w.commit
            && (b <= |t.hist| && t.hist[..b] == v.hist[..b] <==> same && CommittedAgrees(v, w, b))
            && (same && CommittedAgrees(v, w, b) ==> AcceptsAll(w, tail))
            && (!same ==> t == w)
  {
    ReachableInv(c);
    LogMatching(c, s, r);
    var v, w := c.nodes[s], c.nodes[r];
    assert NodeOk(c.minted, v) && NodeOk(c.minted, w);
    SupportedIsMinted(c.minted, v.hist);
    if TermAt(v.hist, a) == TermAt(w.hist, a) {
      ConvergesFrom(v, w, a, b);
    } else {
      FeedStuck(v, w, a, a, b);
      DifferAbove(v.hist, w.hist, a, b);
    }
  }

  lemma ConvergesFrom(v: NodeState, w: NodeState, a: nat, b: nat)
    requires WellFormed(v) && WellFormed(w) && ResultsStamped(v.hist) && Matching(v.hist, w.hist)
    requires v.floor <= a <= b <= |v.hist| && a <= |w.hist| && TermAt(v.hist, a) == TermAt(w.hist, a)
    ensures var t := Feed(w, TailOf(v, a, b));
            && t.commit == w.commit
            && (b <= |t.hist| && t.hist[..b] == v.hist[..b] <==> CommittedAgrees(v, w, b))
            && (CommittedAgrees(v, w, b) ==> AcceptsAll(w, TailOf(v, a, b)))
  {
    var t := Feed(w, TailOf(v, a, b));
    FeedKeepsCommitted(w, TailOf(v, a, b));
    if CommittedAgrees(v, w, b) {
      FeedAll(v, w, a, b);
    }
    if b <= |t.hist| && t.hist[..b] == v.hist[..b] {
      AgreesAfterwards(v, w, t, b);
    }
  }

  /** Snapshot first, then the tail from the receiver's last index, as both callers continue. The
      histories become equal up to any b if and only if both have the same term at that index;
      a receiver whose log ends below the sender's floor ends exactly at the snapshot then, so
      there the condition holds. */
  lemma SnapshotThenTail(c: System, s: string, r: string, b: nat)
    requires Reachable(c) && s in c.nodes && r in c.nodes
    requires c.nodes[r].commit < c.nodes[s].commit
    ensures c.nodes[s].floor <= c.nodes[s].commit <= |c.nodes[s].hist|
    ensures var v, w := c.nodes[s], Install(c.nodes[r], TakeSnapshot(c.nodes[s]));
            && v.commit <= |w.hist|
            && (|c.nodes[r].hist| < v.floor ==>
                  |w.hist| == v.commit && TermAt(v.hist, |w.hist|) == TermAt(w.hist, |w.hist|))
            && (|w.hist| <= b <= |v.hist| ==>
                  var t := Feed(w, TailOf(v, |w.hist|, b));
                  && t.commit == v.commit
                  && (b <= |t.hist| && t.hist[..b] == v.hist[..b] <==>
                      TermAt(v.hist, |w.hist|) == TermAt(w.hist, |w.hist|)))
  {
    ReachableInv(c);
    var v := c.nodes[s];
    InstalledFrom(c.minted, v, c.nodes[r]);
    var w := Install(c.nodes[r], TakeSnapshot(v));
    if |w.hist| <= b <= |v.hist| {
      FeedInstalled(v, w, b);
    }
  }

  /** What the receiver is after the install. */
  lemma InstalledFrom(minted: map<Position, History>, v: NodeState, r: NodeState)
    requires AllMintsOk(minted) && NodeOk(minted, v) && NodeOk(minted, r) && r.commit < v.commit
    ensures var w := Install(r, TakeSnapshot(v));
            && WellFormed(w) && w.commit == v.commit && w.hist[..v.commit] == v.hist[..v.commit]
            && Matching(v.hist, w.hist) && ResultsStamped(v.hist)
            && (|r.hist| < v.floor ==> |w.hist| == v.commit)
  {
    ShippedOk(minted, v);
    var p := TakeSnapshot(v);
    InstallSupported(minted, r, p);
    InstallKeeps(r, p);
    SupportedMatch(minted, v.hist, Install(r, p).hist);
    SupportedIsMinted(minted, v.hist);
  }

  lemma FeedInstalled(v: NodeState, w: NodeState, b: nat)
    requires WellFormed(v) && WellFormed(w) && Matching(v.hist, w.hist) && ResultsStamped(v.hist)
    requires v.commit == w.commit && w.hist[..v.commit] == v.hist[..v.commit]
    requires |w.hist| <= b <= |v.hist|
    ensures var t := Feed(w, TailOf(v, |w.hist|, b));
            && t.commit == v.commit
            && (b <= |t.hist| && t.hist[..b] == v.hist[..b] <==>
                TermAt(v.hist, |w.hist|) == TermAt(w.hist, |w.hist|))
  {
    var a := |w.hist|;
    if TermAt(v.hist, a) == TermAt(w.hist, a) {
      ConvergesFrom(v, w, a, b);
    } else {
      FeedStuck(v, w, a, a, b);
      DifferAbove(v.hist, w.hist, a, b);
    }
  }

  // -------------------------------------------------- catch-up and its fan-outs

  /** What catchUp does to the whole domain: the leader n replicates every message of the stream in
      turn with an in-domain fan-out, of which `reached` get each, until one conflicts with an
      entry the leader has committed. */
  function CaughtUp(c: System, n: string, domain: string, members: set<string>, reached: seq<set<string>>,
                    msgs: seq<Stamped>): System
    requires CanCatchUp(c, n, members, reached, msgs)
    decreases |msgs|
  {
    if msgs == [] then c
    else
      var m := msgs[0];
      if AppendOutcome(c.nodes[n], m.entry, m.prevIndex, m.prevTerm).CommittedConflict? then c
      else CaughtUp(Do(c, FanOut(n, domain, members, reached[0], m)), n, domain, members, reached[1..], msgs[1..])
  }

  predicate CanCatchUp(c: System, n: string, members: set<string>, reached: seq<set<string>>, msgs: seq<Stamped>) {
    && n in c.disk && members <= c.nodes.Keys && |reached| == |msgs|
    && (forall i :: 0 <= i < |msgs| ==> msgs[i] in c.entries && n in reached[i] && reached[i] <= members)
  }

  /** Everything but the quorum marks. */
  function Unmarked(s: NodeState): NodeState {
    s.(marks := map[])
  }

  lemma FanOutLeader(c: System, s: Step)
    requires s.FanOut? && Enabled(c, s)
    ensures Unmarked(Do(c, s).nodes[s.n]) == Unmarked(AppendMsg(c.nodes[s.n], s.m))
    ensures Do(c, s) == c.(nodes := Do(c, s).nodes) && Do(c, s).nodes.Keys == c.nodes.Keys
  {
  }

  lemma AppendUnmarked(s: NodeState, t: NodeState, m: Stamped)
    requires Unmarked(s) == Unmarked(t)
    ensures AppendOutcome(s, m.entry, m.prevIndex, m.prevTerm) == AppendOutcome(t, m.entry, m.prevIndex, m.prevTerm)
    ensures Unmarked(AppendMsg(s, m)) == Unmarked(AppendMsg(t, m))
  {
    assert s.hist == t.hist && s.floor == t.floor && s.commit == t.commit && s.sm == t.sm && s.results == t.results;
  }

  /** Marks do not influence what a stream does to the log. */
  lemma {:induction false} FeedUnmarked(s: NodeState, t: NodeState, msgs: seq<Stamped>)
    requires Unmarked(s) == Unmarked(t)
    ensures Unmarked(Feed(s, msgs)) == Unmarked(Feed(t, msgs))
    decreases |msgs|
  {
    if msgs != [] {
      AppendUnmarked(s, t, msgs[0]);
      if !AppendOutcome(s, msgs[0].entry, msgs[0].prevIndex, msgs[0].prevTerm).CommittedConflict? {
        FeedUnmarked(AppendMsg(s, msgs[0]), AppendMsg(t, msgs[0]), msgs[1..]);
      }
    }
  }

  /** A catch-up with its fan-outs is a run of the cluster, so everything proved of runs holds of
      it, and it leaves the leader's log and state as feeding the stream to the leader does,
      whoever else was reached. */
  lemma {:induction false} CatchUpFeeds(c: System, n: string, domain: string, members: set<string>,
                                        reached: seq<set<string>>, msgs: seq<Stamped>)
    requires CanCatchUp(c, n, members, reached, msgs) && n in members
    ensures var d := CaughtUp(c, n, domain, members, reached, msgs);
            && Leads(c, d)
            && n in d.nodes && Unmarked(d.nodes[n]) == Unmarked(Feed(c.nodes[n], msgs))
    decreases |msgs|
  {
    if msgs != [] {
      var m := msgs[0];
      if !AppendOutcome(c.nodes[n], m.entry, m.prevIndex, m.prevTerm).CommittedConflict? {
        var s := FanOut(n, domain, members, reached[0], m);
        var d := Do(c, s);
        FanOutLeader(c, s);
        CatchUpFeeds(d, n, domain, members, reached[1..], msgs[1..]);
        FeedUnmarked(d.nodes[n], AppendMsg(c.nodes[n], m), msgs[1..]);
        LeadsStep(c, s);
        LeadsOn(c, d, CaughtUp(d, n, domain, members, reached[1..], msgs[1..]));
      }
    }
  }

  // ------------------------------------------------------ the mark it reports

  function Mark(s: NodeState, domain: string): nat {
    if domain in s.marks then s.marks[domain] else 0
  }

  /** The fan-out of m to `reached` is acknowledged by a majority of the domain. */
  predicate Quorate(c: System, n: string, members: set<string>, reached: set<string>, m: Stamped)
    requires n in reached && reached <= members <= c.nodes.Keys
  {
    Acks(c.nodes[n], m) && |Acking(c, reached, m)| >= Majority(|members|)
  }

  /** The highest index that a majority acknowledged during the catch-up; 0 if there is none. */
  function Confirmed(c: System, n: string, domain: string, members: set<string>, reached: seq<set<string>>,
                     msgs: seq<Stamped>): nat
    requires CanCatchUp(c, n, members, reached, msgs)
    decreases |msgs|
  {
    if msgs == [] then 0
    else
      var m := msgs[0];
      if AppendOutcome(c.nodes[n], m.entry, m.prevIndex, m.prevTerm).CommittedConflict? then 0
      else
        var rest := Confirmed(Do(c, FanOut(n, domain, members, reached[0], m)), n, domain, members,
                              reached[1..], msgs[1..]);
        if Quorate(c, n, members, reached[0], m) then Max(m.entry.index, rest) else rest
  }

  predicate Rising(msgs: seq<Stamped>) {
    forall i, j :: 0 <= i < j < |msgs| ==> msgs[i].entry.index < msgs[j].entry.index
  }

  /** One fan-out raises the mark to an index that a majority acknowledged, or not at all, and lowers
      it only above what precedes an entry it overwrites. */
  lemma FanOutMark(c: System, s: Step)
    requires s.FanOut? && Enabled(c, s)
    ensures var i, was, now := s.m.entry.index, Mark(c.nodes[s.n], s.domain), Mark(Do(c, s).nodes[s.n], s.domain);
            var quorate := Quorate(c, s.n, s.members, s.reached, s.m);
            && now <= (if quorate then Max(was, i) else was)
            && (quorate ==> now >= i)
            && (i > 0 ==> Min(was, i - 1) <= now)
  {
  }

  /** When the fan-out overwrites nothing on the leader, the mark is exactly the higher of the old one
      and the index, or the old one without a majority. */
  lemma FanOutMarkExactly(c: System, s: Step)
    requires s.FanOut? && Enabled(c, s)
    requires AppendMsg(c.nodes[s.n], s.m).marks == c.nodes[s.n].marks
    ensures var i, was, now := s.m.entry.index, Mark(c.nodes[s.n], s.domain), Mark(Do(c, s).nodes[s.n], s.domain);
            now == if Quorate(c, s.n, s.members, s.reached, s.m) && i > was then i else was
  {
  }

  /** A stream of higher indices does not lower the mark below j. */
  lemma {:induction false} MarkStays(c: System, n: string, domain: string, members: set<string>,
                                     reached: seq<set<string>>, msgs: seq<Stamped>, j: nat)
    requires CanCatchUp(c, n, members, reached, msgs) && n in members
    requires (forall i :: 0 <= i < |msgs| ==> j < msgs[i].entry.index) && j <= Mark(c.nodes[n], domain)
    ensures var d := CaughtUp(c, n, domain, members, reached, msgs); n in d.nodes && j <= Mark(d.nodes[n], domain)
    decreases |msgs|
  {
    if msgs != [] {
      var m := msgs[0];
      if !AppendOutcome(c.nodes[n], m.entry, m.prevIndex, m.prevTerm).CommittedConflict? {
        var s := FanOut(n, domain, members, reached[0], m);
        FanOutLeader(c, s);
        FanOutMark(c, s);
        MarkStays(Do(c, s), n, domain, members, reached[1..], msgs[1..], j);
      }
    }
  }

  /** The mark that a catch-up reports was acknowledged by a majority, or was there before; and along
      a stream of rising indices, whatever a majority acknowledged is reported. */
  lemma {:induction false} CatchUpMarks(c: System, n: string, domain: string, members: set<string>,
                                        reached: seq<set<string>>, msgs: seq<Stamped>)
    requires CanCatchUp(c, n, members, reached, msgs) && n in members
    ensures var d := CaughtUp(c, n, domain, members, reached, msgs);
            var top := Confirmed(c, n, domain, members, reached, msgs);
            && n in d.nodes
            && Mark(d.nodes[n], domain) <= Max(Mark(c.nodes[n], domain), top)
            && (Rising(msgs) ==> top <= Mark(d.nodes[n], domain))
    decreases |msgs|
  {
    if msgs != [] {
      var m := msgs[0];
      if !AppendOutcome(c.nodes[n], m.entry, m.prevIndex, m.prevTerm).CommittedConflict? {
        var s := FanOut(n, domain, members, reached[0], m);
        FanOutLeader(c, s);
        FanOutMark(c, s);
        CatchUpMarks(Do(c, s), n, domain, members, reached[1..], msgs[1..]);
        if Rising(msgs) && Quorate(c, n, members, reached[0], m) {
          MarkStays(Do(c, s), n, domain, members, reached[1..], msgs[1..], m.entry.index);
        }
      }
    }
  }
}
