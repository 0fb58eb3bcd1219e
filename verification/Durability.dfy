/** The conditions of the incremental store, discharged over cluster runs: every save a node
    makes is appendable to what its disk holds. */
module Durability {
  import opened Types
  import opened NodeLog
  import opened Cluster
  import opened LogKeys
  import opened KvStore

  function SavedOf(meta: string, s: NodeState): Saved {
    Saved(meta, Retained(s), s.sm, s.results)
  }

  /** A run whose snapshot installs agree with the committed prefix they replace. */
  predicate AgreeingRun(c: System, steps: seq<Step>, d: System)
    decreases |steps|
  {
    if steps == [] then d == c
    else
      && Enabled(c, steps[0])
      && (steps[0].InstallAt? ==> KeepsCommitted(c.nodes[steps[0].n], Local(c, steps[0])))
      && AgreeingRun(Do(c, steps[0]), steps[1..], d)
  }

  /** No key of the state machine or of the results disappears. */
  predicate Grows(s: NodeState, t: NodeState) {
    s.sm.Keys <= t.sm.Keys && s.results.Keys <= t.results.Keys
  }

  predicate DiskGrows(c: System) {
    forall n :: n in c.nodes && n in c.disk ==> Grows(c.disk[n], c.nodes[n])
  }

  lemma {:induction false} ReplayGrows(h: History, k: nat, n: nat)
    requires k <= n <= |h|
    ensures Replay(h[..k]).Keys <= Replay(h[..n]).Keys
    decreases n
  {
    if k < n {
      ReplayGrows(h, k, n - 1);
      ReplayStep(h, n - 1);
    }
  }

  lemma KeptPrefixGrows(s: NodeState, t: NodeState)
    requires Inv(s) && Inv(t) && KeepsCommitted(s, t)
    ensures s.sm.Keys <= t.sm.Keys
  {
    ReplayGrows(t.hist, s.commit, t.commit);
  }

  lemma {:induction false} ApplyGrows(s: NodeState, index: nat)
    requires index <= |s.hist|
    ensures s.results.Keys <= ApplyThrough(s, index).results.Keys
    decreases index
  {
    if index > s.commit {
      ApplyGrows(s, index - 1);
    }
  }

  lemma CommitGrows(s: NodeState, index: nat, term: nat, request: string)
    requires Inv(s)
    ensures Grows(s, AdvanceCommit(s, index, term, request))
  {
    var t := AdvanceCommit(s, index, term, request);
    if index > s.commit && CommitMatches(s, index, term, request) {
      ApplyGrows(s, index);
    }
    CommitIsAtomic(s, index, term, request);
    KeptPrefixGrows(s, t);
  }

  lemma InstallGrows(s: NodeState, p: Snapshot)
    requires Inv(s) && SnapshotInv(p) && KeepsCommitted(s, Install(s, p))
    ensures Grows(s, Install(s, p))
  {
    InstallKeeps(s, p);
    KeptPrefixGrows(s, Install(s, p));
  }

  lemma LocalGrows(v: NodeState, saved: NodeState, s: Step)
    requires Inv(v) && !s.Crash?
    requires s.InstallAt? ==> SnapshotInv(s.p) && KeepsCommitted(v, Install(v, s.p))
    ensures Grows(v, LocalOn(v, saved, s))
  {
    match s {
      case Commit(_, index, term, request) => CommitGrows(v, index, term, request);
      case InstallAt(_, p) => InstallGrows(v, p);
      case _ =>
    }
  }

  /** Any other step leaves the applied state of every node alone. */
  lemma OthersSame(c: System, s: Step, n: string)
    requires Enabled(c, s) && !IsLocal(s) && n in c.nodes
    ensures var d := Do(c, s);
            && d.nodes.Keys == c.nodes.Keys
            && d.nodes[n].sm == c.nodes[n].sm && d.nodes[n].results == c.nodes[n].results
            && (n in d.disk ==> n in c.disk && (d.disk[n] == c.disk[n] || d.disk[n] == d.nodes[n]))
  {
    if s.FanOut? {
      MemberSame(c.nodes[n], n in s.reached, s.domain, s.m);
    }
  }

  lemma MemberSame(v: NodeState, reached: bool, domain: string, m: Stamped)
    ensures forall raise :: var t := Member(v, reached, raise, domain, m); t.sm == v.sm && t.results == v.results
  {
  }

  lemma LocalStepGrows(c: System, s: Step)
    requires SystemInv(c) && Enabled(c, s) && DiskGrows(c) && IsLocal(s)
    requires s.InstallAt? ==> KeepsCommitted(c.nodes[s.n], Local(c, s))
    ensures DiskGrows(c.(nodes := c.nodes[s.n := Local(c, s)]))
  {
    assert NodeOk(c.minted, c.nodes[s.n]);
    if !s.Crash? {
      LocalGrows(c.nodes[s.n], c.disk[s.n], s);
    }
    NodeGrows(c, s.n, Local(c, s));
  }

  lemma NodeGrows(c: System, n: string, t: NodeState)
    requires DiskGrows(c) && n in c.nodes && n in c.disk
    requires t == c.disk[n] || Grows(c.nodes[n], t)
    ensures DiskGrows(c.(nodes := c.nodes[n := t]))
  {
  }

  lemma OtherStepGrows(c: System, s: Step)
    requires Enabled(c, s) && DiskGrows(c) && !IsLocal(s)
    ensures DiskGrows(Do(c, s))
  {
    var d := Do(c, s);
    OthersSame(c, s, s.n);
    forall n | n in d.nodes && n in d.disk ensures Grows(d.disk[n], d.nodes[n]) {
      OthersSame(c, s, n);
    }
  }

  lemma StepGrows(c: System, s: Step)
    requires SystemInv(c) && Enabled(c, s) && DiskGrows(c)
    requires s.InstallAt? ==> KeepsCommitted(c.nodes[s.n], Local(c, s))
    ensures DiskGrows(Do(c, s))
  {
    if IsLocal(s) {
      LocalStep(c, s);
      LocalStepGrows(c, s);
    } else {
      OtherStepGrows(c, s);
    }
  }

  lemma RetainedAscending(s: NodeState)
    requires WellFormed(s) && |s.hist| < INDEX_LIMIT
    ensures Ascending(Retained(s))
  {
    var log := Retained(s);
    forall k | 0 <= k < |log| ensures log[k].index == s.floor + k + 1 {
      assert log[k] == s.hist[s.floor + k];
    }
  }

  lemma RetainedAt(s: NodeState, i: nat)
    requires WellFormed(s) && |s.hist| < INDEX_LIMIT && i in ByIndex(Retained(s))
    ensures 1 <= i <= |s.hist| && ByIndex(Retained(s))[i] == s.hist[i - 1]
  {
    var log := Retained(s);
    RetainedAscending(s);
    ByIndexMeans(log);
    var k :| 0 <= k < |log| && log[k].index == i;
    assert log[k] == s.hist[s.floor + k];
  }

  /** Equal fingerprints mean equal entries, because equal terms at an index do. */
  lemma FingerprintsSound(g: NodeState, h: NodeState)
    requires WellFormed(g) && WellFormed(h) && |g.hist| < INDEX_LIMIT && |h.hist| < INDEX_LIMIT
    requires Matching(g.hist, h.hist)
    ensures PrintsDetermine(ByIndex(Retained(g)), ByIndex(Retained(h)))
  {
    var a, b := ByIndex(Retained(g)), ByIndex(Retained(h));
    forall i | i in a && i in b && FingerprintOf(a[i]) == FingerprintOf(b[i]) ensures a[i] == b[i] {
      RetainedAt(g, i);
      RetainedAt(h, i);
      assert g.hist[..i][i - 1] == h.hist[..i][i - 1];
    }
  }

  /** In every reachable state, an incremental save of a node's memory on top of its disk leaves
      exactly the whole state if and only if no state-machine or result key has disappeared since
      the last save: what append, conflict truncation, compaction and installs do to the log is
      always covered. */
  lemma IncrementalSaveExact(c: System, n: string, before: string, after: string)
    requires Reachable(c) && n in c.nodes && n in c.disk
    requires |c.nodes[n].hist| < INDEX_LIMIT && |c.disk[n].hist| < INDEX_LIMIT
    ensures var disk, mem := SavedOf(before, c.disk[n]), SavedOf(after, c.nodes[n]);
            && Ascending(mem.log)
            && (Merged(Encode(disk), mem) == Encode(mem) <==> Grows(c.disk[n], c.nodes[n]))
  {
    ReachableInv(c);
    var g, h := c.disk[n], c.nodes[n];
    assert NodeOk(c.minted, g) && NodeOk(c.minted, h);
    SupportedMatch(c.minted, g.hist, h.hist);
    SaveExact(before, after, g, h);
  }

  lemma SaveExact(before: string, after: string, g: NodeState, h: NodeState)
    requires WellFormed(g) && WellFormed(h) && |g.hist| < INDEX_LIMIT && |h.hist| < INDEX_LIMIT
    requires Matching(g.hist, h.hist)
    ensures var disk, mem := SavedOf(before, g), SavedOf(after, h);
            && Ascending(mem.log)
            && (Appendable(Encode(disk), mem) <==> Grows(g, h))
            && (Merged(Encode(disk), mem) == Encode(mem) <==> Grows(g, h))
  {
    FingerprintsSound(g, h);
    RetainedAscending(h);
    MergedExact(Encode(SavedOf(before, g)), SavedOf(after, h));
  }

  // ------------------------------------------------------ the store behind a node

  /** Indices fit the 8-byte keys throughout the run. */
  predicate Fits(c: System, steps: seq<Step>, n: string)
    decreases |steps|
  {
    && n in c.nodes && n in c.disk && |c.nodes[n].hist| < INDEX_LIMIT && |c.disk[n].hist| < INDEX_LIMIT
    && (steps == [] || (Enabled(c, steps[0]) && Fits(Do(c, steps[0]), steps[1..], n)))
  }

  /** What a run does to the store of node n: a save at each of its persist steps, a reopening at
      each crash. `meta` encodes everything that is not log, state machine or results. */
  function StoreEvents(c: System, steps: seq<Step>, n: string, meta: NodeState -> string): seq<Event>
    requires Fits(c, steps, n)
    decreases |steps|
  {
    if steps == [] then []
    else
      var rest := StoreEvents(Do(c, steps[0]), steps[1..], n, meta);
      if steps[0] == Persist(n) then [SaveEvent(SavedOf(meta(c.nodes[n]), c.nodes[n]), true)] + rest
      else if steps[0] == Crash(n) then [Reopen] + rest
      else rest
  }

  lemma DiskStep(c: System, s: Step, n: string)
    requires Enabled(c, s) && n in c.nodes && n in c.disk
    ensures n in Do(c, s).disk
    ensures Do(c, s).disk[n] == if s == Persist(n) then c.nodes[n] else c.disk[n]
  {
  }

  /** Whenever the node saves, no key has disappeared since its last save. */
  predicate SavesGrow(c: System, steps: seq<Step>, n: string)
    requires Fits(c, steps, n)
    decreases |steps|
  {
    steps == [] ||
    ((steps[0] == Persist(n) ==> Grows(c.disk[n], c.nodes[n])) && SavesGrow(Do(c, steps[0]), steps[1..], n))
  }

  /** The saves of a run are all appendable if and only if no key disappears between them; then
      what was saved last is the disk of the model. */
  lemma {:induction false} StoreFollows(c: System, steps: seq<Step>, d: System, n: string,
                                        meta: NodeState -> string, last: Saved)
    requires SystemInv(c) && Run(c, steps, d) && Fits(c, steps, n)
    requires last == SavedOf(last.meta, c.disk[n])
    ensures var events := StoreEvents(c, steps, n, meta);
            && (AllAppendable(last, events) <==> SavesGrow(c, steps, n))
            && var saved := LastSaved(last, events); n in d.disk && saved == SavedOf(saved.meta, d.disk[n])
    decreases |steps|
  {
    if steps != [] {
      var s, next := steps[0], Do(c, steps[0]);
      var rest := StoreEvents(next, steps[1..], n, meta);
      StepKeeps(c, s);
      DiskStep(c, s, n);
      if s == Persist(n) {
        var saved := SavedOf(meta(c.nodes[n]), c.nodes[n]);
        AppendableExact(c, n, last.meta, saved.meta);
        StoreFollows(next, steps[1..], d, n, meta, saved);
        SavedFirst(last, saved, rest);
      } else {
        StoreFollows(next, steps[1..], d, n, meta, last);
        if s == Crash(n) {
          ReopenedFirst(last, rest);
        }
      }
    }
  }

  lemma AppendableExact(c: System, n: string, before: string, after: string)
    requires SystemInv(c) && n in c.nodes && n in c.disk
    requires |c.nodes[n].hist| < INDEX_LIMIT && |c.disk[n].hist| < INDEX_LIMIT
    ensures var disk, mem := SavedOf(before, c.disk[n]), SavedOf(after, c.nodes[n]);
            Ascending(mem.log) && (Appendable(Encode(disk), mem) <==> Grows(c.disk[n], c.nodes[n]))
  {
    var g, h := c.disk[n], c.nodes[n];
    assert NodeOk(c.minted, g) && NodeOk(c.minted, h);
    SupportedMatch(c.minted, g.hist, h.hist);
    SaveExact(before, after, g, h);
  }

  lemma SavedFirst(last: Saved, s: Saved, rest: seq<Event>)
    requires Ascending(s.log)
    ensures var events := [SaveEvent(s, true)] + rest;
            && (AllAppendable(last, events) <==> Appendable(Encode(last), s) && AllAppendable(s, rest))
            && LastSaved(last, events) == LastSaved(s, rest)
  {
    assert ([SaveEvent(s, true)] + rest)[1..] == rest;
  }

  lemma ReopenedFirst(last: Saved, rest: seq<Event>)
    ensures AllAppendable(last, [Reopen] + rest) <==> AllAppendable(last, rest)
    ensures LastSaved(last, [Reopen] + rest) == LastSaved(last, rest)
  {
    assert ([Reopen] + rest)[1..] == rest;
  }

  /** Over every run from the start, the saves of a node are all appendable if and only if no key
      disappears between them. Then the store behind the node, opened empty, holds exactly the
      node's disk of the model: what a crash falls back to is what a reopened store loads. */
  lemma StoreHoldsDisk(c: System, steps: seq<Step>, d: System, n: string, meta: NodeState -> string)
    requires Init(c) && Run(c, steps, d) && Fits(c, steps, n)
    ensures var events := StoreEvents(c, steps, n, meta);
            && (AllAppendable(NOTHING_SAVED, events) <==> SavesGrow(c, steps, n))
            && n in d.disk
            && LastSaved(NOTHING_SAVED, events) == SavedOf(LastSaved(NOTHING_SAVED, events).meta, d.disk[n])
            && (SavesGrow(c, steps, n) ==> Durable(EMPTY_ENGINE, events) == Encode(LastSaved(NOTHING_SAVED, events)))
  {
    assert SavedOf("", EMPTY_NODE) == NOTHING_SAVED;
    assert Encode(NOTHING_SAVED) == EMPTY_ENGINE;
    StoreFollows(c, steps, d, n, meta, NOTHING_SAVED);
    if SavesGrow(c, steps, n) {
      StoresLastSaved(NOTHING_SAVED, StoreEvents(c, steps, n, meta));
    }
  }

  lemma {:induction false} GrowsAlong(c: System, steps: seq<Step>, d: System, n: string)
    requires SystemInv(c) && DiskGrows(c) && AgreeingRun(c, steps, d) && Fits(c, steps, n)
    ensures SystemInv(d) && DiskGrows(d) && n in d.nodes && n in d.disk
    ensures |d.nodes[n].hist| < INDEX_LIMIT && |d.disk[n].hist| < INDEX_LIMIT
    ensures Run(c, steps, d) && SavesGrow(c, steps, n)
    decreases |steps|
  {
    if steps != [] {
      StepKeeps(c, steps[0]);
      StepGrows(c, steps[0]);
      GrowsAlong(Do(c, steps[0]), steps[1..], d, n);
    }
  }

  /** What append, commit, compaction and agreeing installs do: in a run whose installs agree with the
      committed prefixes they replace, no key disappears between any saves of a node, and saving it
      incrementally at the end stores its whole state. */
  lemma IncrementalSaveIsWhole(c: System, steps: seq<Step>, d: System, n: string, before: string, after: string)
    requires Init(c) && AgreeingRun(c, steps, d) && Fits(c, steps, n)
    ensures Run(c, steps, d) && SavesGrow(c, steps, n) && n in d.nodes && n in d.disk
    ensures var disk, mem := SavedOf(before, d.disk[n]), SavedOf(after, d.nodes[n]);
            Ascending(mem.log) && Merged(Encode(disk), mem) == Encode(mem)
  {
    GrowsAlong(c, steps, d, n);
    AppendableExact(d, n, before, after);
    MergedExact(Encode(SavedOf(before, d.disk[n])), SavedOf(after, d.nodes[n]));
  }
}
