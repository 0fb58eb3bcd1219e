/** Compaction is invisible: a node that compacts at arbitrary legal points behaves like one
    that never does. */
module Compaction {
  import opened Types
  import opened NodeLog

  datatype Op =
    | DoAppend(m: Stamped)
    | DoCommit(index: nat, term: nat, request: string)
    | DoCompact(index: nat)

  /** What peers and voters can see of one operation. A compaction shows nothing. */
  datatype Seen =
    | SawAppend(outcome: Outcome, summary: LogSummary, marks: map<string, nat>)
    | SawCommit(advanced: bool, sm: map<string, string>, results: map<string, ClientResult>)

  function Step(s: NodeState, op: Op): NodeState {
    match op
    case DoAppend(m) => Append(s, m.entry, m.prevIndex, m.prevTerm)
    case DoCommit(i, t, r) => AdvanceCommit(s, i, t, r)
    case DoCompact(i) => Compact(s, i)
  }

  function Observation(s: NodeState, op: Op): seq<Seen> {
    var t := Step(s, op);
    match op
    case DoAppend(m) => [SawAppend(AppendOutcome(s, m.entry, m.prevIndex, m.prevTerm), SummaryOf(t.hist), t.marks)]
    case DoCommit(i, tm, r) => [SawCommit(CommitMatches(s, i, tm, r), t.sm, t.results)]
    case DoCompact(_) => []
  }

  function Observations(s: NodeState, ops: seq<Op>): seq<Seen>
    decreases |ops|
  {
    if ops == [] then [] else Observation(s, ops[0]) + Observations(Step(s, ops[0]), ops[1..])
  }

  function Final(s: NodeState, ops: seq<Op>): NodeState
    decreases |ops|
  {
    if ops == [] then s else Final(Step(s, ops[0]), ops[1..])
  }

  function WithoutCompaction(ops: seq<Op>): seq<Op> {
    if ops == [] then []
    else if ops[0].DoCompact? then WithoutCompaction(ops[1..])
    else [ops[0]] + WithoutCompaction(ops[1..])
  }

  /** The entry is anchored right below itself and, where it falls into the applied prefix, is
      the entry applied there. */
  predicate AgreesWithApplied(s: NodeState, m: Stamped) {
    var i := m.entry.index;
    && i >= 1 && m.prevIndex == i - 1
    && (i <= s.commit && i <= |s.hist| ==>
          SameIdentity(s.hist[i - 1], m.entry) && (i > 1 ==> m.prevTerm == s.hist[i - 2].term))
  }

  predicate Agreeable(s: NodeState, ops: seq<Op>)
    decreases |ops|
  {
    ops == [] ||
    ((ops[0].DoAppend? ==> AgreesWithApplied(s, ops[0].m)) && Agreeable(Step(s, ops[0]), ops[1..]))
  }

  /** The same node as if it had never compacted. */
  function Uncut(s: NodeState): NodeState {
    s.(floor := 0)
  }

  lemma {:induction false} ApplyUncut(s: NodeState, index: nat)
    requires index <= |s.hist|
    ensures ApplyThrough(Uncut(s), index) == Uncut(ApplyThrough(s, index))
    decreases index
  {
    if index > s.commit {
      ApplyUncut(s, index - 1);
    }
  }

  lemma AppendUncut(s: NodeState, m: Stamped)
    requires WellFormed(s) && AgreesWithApplied(s, m)
    ensures AppendOutcome(s, m.entry, m.prevIndex, m.prevTerm) ==
            AppendOutcome(Uncut(s), m.entry, m.prevIndex, m.prevTerm)
    ensures Uncut(Append(s, m.entry, m.prevIndex, m.prevTerm)) == Append(Uncut(s), m.entry, m.prevIndex, m.prevTerm)
    ensures WellFormed(Append(s, m.entry, m.prevIndex, m.prevTerm))
  {
  }

  /** Exactly what the floor hides: for an entry anchored right below itself, the outcome is that of
      a node that never compacted if and only if the entry lies above the floor, or it is the entry
      compacted there, on its true anchor. */
  lemma FloorShows(s: NodeState, m: Stamped)
    requires WellFormed(s) && m.entry.index >= 1 && m.prevIndex == m.entry.index - 1
    ensures var i, e := m.entry.index, m.entry;
            AppendOutcome(s, e, m.prevIndex, m.prevTerm) == AppendOutcome(Uncut(s), e, m.prevIndex, m.prevTerm) <==>
            i > s.floor || (SameIdentity(s.hist[i - 1], e) && (i > 1 ==> m.prevTerm == s.hist[i - 2].term))
  {
  }

  lemma StepUncut(s: NodeState, op: Op)
    requires WellFormed(s)
    requires op.DoAppend? ==> AgreesWithApplied(s, op.m)
    ensures WellFormed(Step(s, op))
    ensures Uncut(Step(s, op)) == if op.DoCompact? then Uncut(s) else Step(Uncut(s), op)
    ensures !op.DoCompact? ==> Observation(s, op) == Observation(Uncut(s), op)
  {
    match op {
      case DoAppend(m) => AppendUncut(s, m);
      case DoCommit(i, t, r) =>
        if i > s.commit && CommitMatches(s, i, t, r) {
          ApplyUncut(s, i);
        }
      case DoCompact(_) =>
    }
  }

  /** Over every sequence of appends, commits and compactions, the compacting node shows the
      same append outcomes, summaries, quorum marks, commit answers, state machine and results
      as the node that skips the compactions, and ends with the same history. */
  lemma {:induction false} CompactionInvisible(s: NodeState, ops: seq<Op>)
    requires WellFormed(s) && Agreeable(s, ops)
    ensures Observations(s, ops) == Observations(Uncut(s), WithoutCompaction(ops))
    ensures Uncut(Final(s, ops)) == Final(Uncut(s), WithoutCompaction(ops))
    decreases |ops|
  {
    if ops != [] {
      StepUncut(s, ops[0]);
      CompactionInvisible(Step(s, ops[0]), ops[1..]);
    }
  }
}
