/** What one node's log operations mean, stated on the node's whole history.

    The program keeps only the entries above a snapshot floor (internal/cdraft/store.go:24-34);
    here a node is the full history of entries it covers plus the floor, so `hist[floor..]` is
    the retained log. `commit` is both KnownGlobalCommitIndex and AppliedIndex. */
module NodeLog {
  import opened Types

  type History = seq<LogEntry>

  datatype Outcome = Accepted | PrefixMismatch | CommittedConflict

  datatype NodeState = NodeState(
    hist: History,
    floor: nat,
    commit: nat,
    marks: map<string, nat>,
    sm: map<string, string>,
    results: map<string, ClientResult>)

  const EMPTY_NODE := NodeState([], 0, 0, map[], map[], map[])

  // ---------------------------------------------------------------- histories

  /** Entry number i of a history carries index i + 1. */
  predicate Indexed(h: History) {
    forall i :: 0 <= i < |h| ==> h[i].index == i + 1
  }

  function TermAt(h: History, index: nat): nat {
    if 1 <= index <= |h| then h[index - 1].term else 0
  }

  function SummaryOf(h: History): LogSummary {
    LogSummary(TermAt(h, |h|), |h|)
  }

  predicate SameIdentity(a: LogEntry, b: LogEntry) {
    a.term == b.term && a.request == b.request
  }

  /** The key/value state after applying a history from the start. */
  function Replay(h: History): map<string, string> {
    if h == [] then map[]
    else var e := h[|h| - 1]; Replay(h[..|h| - 1])[e.command.key := e.command.value]
  }

  function Decision(e: LogEntry): ClientResult {
    ClientResult(e.request, e.term, e.index, e.result, GlobalResponse, true, "")
  }

  /** The result cache after applying a history from the start. */
  function ResultsOf(h: History): map<string, ClientResult> {
    if h == [] then map[]
    else var e := h[|h| - 1]; ResultsOf(h[..|h| - 1])[e.request := Decision(e)]
  }

  predicate Covers(results: map<string, ClientResult>, part: map<string, ClientResult>) {
    forall r :: r in part ==> r in results && results[r] == part[r]
  }

  // --------------------------------------------------------------- invariants

  predicate WellFormed(s: NodeState) {
    s.floor <= s.commit <= |s.hist| && Indexed(s.hist)
  }

  /** The state machine is the replay of the node's own applied history, compacted part
      included, and the result cache holds the decision of every applied entry. */
  predicate Inv(s: NodeState) {
    && WellFormed(s)
    && s.sm == Replay(s.hist[..s.commit])
    && Covers(s.results, ResultsOf(s.hist[..s.commit]))
  }

  // --------------------------------------------------------------- operations

  function RolledBack(marks: map<string, nat>, ceiling: nat): map<string, nat> {
    map d | d in marks :: Min(marks[d], ceiling)
  }

  predicate PrefixMatches(s: NodeState, prevIndex: nat, prevTerm: nat) {
    prevIndex == 0 || (s.floor <= prevIndex <= |s.hist| && s.hist[prevIndex - 1].term == prevTerm)
  }

  /** appendEntryChecked. */
  function AppendOutcome(s: NodeState, e: LogEntry, prevIndex: nat, prevTerm: nat): Outcome {
    if e.index <= s.floor then Accepted
    else if !PrefixMatches(s, prevIndex, prevTerm) || e.index > |s.hist| + 1 then PrefixMismatch
    else if e.index <= s.commit && e.index <= |s.hist| && !SameIdentity(s.hist[e.index - 1], e) then CommittedConflict
    else Accepted
  }

  function Append(s: NodeState, e: LogEntry, prevIndex: nat, prevTerm: nat): NodeState {
    if AppendOutcome(s, e, prevIndex, prevTerm) != Accepted || e.index <= s.floor then s
    else if e.index == |s.hist| + 1 then s.(hist := s.hist + [e])
    else if SameIdentity(s.hist[e.index - 1], e) then s
    else s.(hist := s.hist[..e.index - 1] + [e], marks := RolledBack(s.marks, e.index - 1))
  }

  /** applyEntry on any entry. */
  function ApplyOne(s: NodeState, e: LogEntry): NodeState {
    if e.index > s.commit + 1 then s
    else if e.index == s.commit + 1 then
      s.(commit := e.index,
      sm := s.sm[e.command.key := e.command.value],
      results := s.results[e.request := Decision(e)])
    else s.(results := s.results[e.request := Decision(e)])
  }

  /** applyEntry on the next unapplied entry of the history. */
  function ApplyNext(s: NodeState): NodeState
    requires s.commit < |s.hist|
  {
    var e := s.hist[s.commit];
    s.(commit := s.commit + 1,
    sm := s.sm[e.command.key := e.command.value],
    results := s.results[e.request := Decision(e)])
  }

  function ApplyThrough(s: NodeState, index: nat): (r: NodeState)
    requires index <= |s.hist|
    ensures r.hist == s.hist && r.floor == s.floor && r.marks == s.marks
    ensures r.commit == Max(s.commit, index)
    decreases index
  {
    if index <= s.commit then s else ApplyNext(ApplyThrough(s, index - 1))
  }

  lemma ApplyOneMore(s: NodeState, index: nat)
    requires s.commit <= index <= |s.hist|
    ensures index < |s.hist| ==> ApplyThrough(s, index + 1) == ApplyNext(ApplyThrough(s, index))
    ensures ApplyThrough(s, s.commit) == s
  {
  }

  /** advanceCommitLocked, before its automatic compaction: all of the prefix or nothing. */
  predicate CommitMatches(s: NodeState, index: nat, term: nat, request: string) {
    index <= s.commit ||
    (index <= |s.hist| && s.hist[index - 1].term == term && s.hist[index - 1].request == request)
  }

  function AdvanceCommit(s: NodeState, index: nat, term: nat, request: string): NodeState {
    if index > s.commit && CommitMatches(s, index, term, request) then ApplyThrough(s, index) else s
  }

  /** advanceCommitLocked with the compaction policy it ends with. */
  function CommitStep(s: NodeState, p: CompactionPolicy, frozen: bool, index: nat, term: nat, request: string)
    : NodeState
  {
    if index > s.commit && CommitMatches(s, index, term, request)
    then MaybeCompact(ApplyThrough(s, index), p, frozen) else s
  }

  /** compactLog. */
  predicate CanCompact(s: NodeState, index: nat) {
    s.floor < index <= s.commit
  }

  function Compact(s: NodeState, index: nat): NodeState {
    if CanCompact(s, index) then s.(floor := index) else s
  }

  datatype CompactionPolicy = CompactionPolicy(threshold: nat, retain: nat)

  /** maybeCompactLocked; `frozen` is migrating or draining. */
  function MaybeCompact(s: NodeState, p: CompactionPolicy, frozen: bool): NodeState {
    if p.threshold == 0 || frozen || s.commit <= s.floor + p.threshold || s.commit <= p.retain then s
    else Compact(s, s.commit - p.retain)
  }

  /** The applied prefix a node ships to a straggler. `prefix` is the history it stands for;
      on the wire only its length and its last term and request travel. */
  datatype Snapshot = Snapshot(prefix: History, sm: map<string, string>, results: map<string, ClientResult>)

  function TakeSnapshot(s: NodeState): Snapshot
    requires s.commit <= |s.hist|
  {
    Snapshot(s.hist[..s.commit], s.sm, s.results)
  }

  predicate SnapshotInv(p: Snapshot) {
    && Indexed(p.prefix)
    && p.sm == Replay(p.prefix)
    && Covers(p.results, ResultsOf(p.prefix))
  }

  /** The receiver still holds the snapshot's boundary entry, so it keeps the tail above it. */
  predicate HoldsBoundary(s: NodeState, p: Snapshot) {
    |p.prefix| <= |s.hist| && TermAt(s.hist, |p.prefix|) == TermAt(p.prefix, |p.prefix|)
  }

  /** installSnapshotState. */
  function Install(s: NodeState, p: Snapshot): NodeState {
    var n := |p.prefix|;
    if n <= s.commit then s
    else
      var kept := HoldsBoundary(s, p);
      s.(hist := if kept then p.prefix + s.hist[n..] else p.prefix,
      marks := if kept then s.marks else RolledBack(s.marks, n),
      floor := n, commit := n, sm := p.sm, results := s.results + p.results)
  }

  // ------------------------------------------------- entries on the wire

  /** A replicated entry with the consistency anchor of the entry before it. */
  datatype Stamped = Stamped(entry: LogEntry, prevIndex: nat, prevTerm: nat)

  /** The result string does not travel: the receiver recomputes it from the command. */
  function Wire(e: LogEntry): LogEntry {
    e.(result := CommandResult(e.command))
  }

  function StampAt(h: History, i: nat): Stamped
    requires i < |h|
  {
    Stamped(Wire(h[i]), i, TermAt(h, i))
  }

  /** collectTailEntries: the retained entries in (after, barrier], stamped from one log state. */
  function TailOf(s: NodeState, after: nat, barrier: nat): seq<Stamped> {
    var end := Min(barrier, |s.hist|);
    if after < s.floor || end <= after then []
    else seq(end - after, k requires 0 <= k < end - after => StampAt(s.hist, after + k))
  }

  /** The appends of catchUp: a prefix mismatch is skipped, a committed conflict ends the stream. */
  function Feed(s: NodeState, msgs: seq<Stamped>): NodeState
    decreases |msgs|
  {
    if msgs == [] then s
    else
      var m := msgs[0];
      if AppendOutcome(s, m.entry, m.prevIndex, m.prevTerm).CommittedConflict? then s
      else Feed(Append(s, m.entry, m.prevIndex, m.prevTerm), msgs[1..])
  }

  function FindByRequest(log: seq<LogEntry>, request: string): Option<LogEntry> {
    if log == [] then None
    else if log[0].request == request then Some(log[0])
    else FindByRequest(log[1..], request)
  }

  /** The log a node still holds. */
  function Retained(s: NodeState): seq<LogEntry> {
    if s.floor <= |s.hist| then s.hist[s.floor..] else []
  }

  datatype WriteReply =
    | Draining                        // new write refused while a handoff drains
    | Reused                          // the request id is taken by another command
    | Settled(final: ClientResult)    // already decided: the cached decision
    | Joined(entry: LogEntry)         // already ordered, not yet decided
    | Ordered(entry: LogEntry)        // a new log entry

  /** The ordering and idempotency part of Write on a serving Global Leader of term `term`. */
  function WriteOutcome(s: NodeState, term: nat, w: WriteRequest, draining: bool): WriteReply {
    var held := FindByRequest(Retained(s), w.request);
    if draining && w.request !in s.results && held.None? then Draining
    else if w.request in s.results then
      var final := s.results[w.request];
      var reused := if held.Some? then held.value.command != w.command || held.value.origin != w.origin
                    else final.index > s.floor || final.result != CommandResult(w.command);
      if reused then Reused else Settled(final)
    else if held.Some? then
      if held.value.command != w.command || held.value.origin != w.origin then Reused else Joined(held.value)
    else Ordered(LogEntry(term, |s.hist| + 1, w.request, w.origin, w.command, CommandResult(w.command)))
  }

  function Write(s: NodeState, term: nat, w: WriteRequest, draining: bool): NodeState {
    match WriteOutcome(s, term, w, draining)
    case Ordered(e) => s.(hist := s.hist + [e])
    case _ => s
  }

  // ------------------------------------------------- what the operations keep

  /** No append changes an entry at or below the commit index, and none moves the floor, the
      commit index, the state machine or the results. */
  lemma AppendKeeps(s: NodeState, e: LogEntry, prevIndex: nat, prevTerm: nat)
    requires Inv(s)
    ensures var t := Append(s, e, prevIndex, prevTerm);
            && Inv(t)
            && t.commit == s.commit && t.floor == s.floor && t.sm == s.sm && t.results == s.results
            && t.hist[..s.commit] == s.hist[..s.commit]
  {
    var t := Append(s, e, prevIndex, prevTerm);
    assert t.hist[..s.commit] == s.hist[..s.commit];
  }

  /** What each outcome promises: a refusal changes nothing; an acceptance above the floor puts
      the entry's identity at its index, right after the stamped predecessor, and keeps
      everything before it. */
  lemma AppendMeans(s: NodeState, e: LogEntry, prevIndex: nat, prevTerm: nat)
    requires WellFormed(s)
    ensures var t, o := Append(s, e, prevIndex, prevTerm), AppendOutcome(s, e, prevIndex, prevTerm);
            && (o != Accepted ==> t == s)
            && (o == CommittedConflict ==> e.index <= s.commit && !SameIdentity(s.hist[e.index - 1], e))
            && (o == Accepted && e.index > s.floor ==>
                  && e.index <= |t.hist| && SameIdentity(t.hist[e.index - 1], e)
                  && (prevIndex == 0 || TermAt(s.hist, prevIndex) == prevTerm)
                  && t.hist[..e.index - 1] == s.hist[..e.index - 1])
  {
  }

  /** A quorum mark never vouches for an entry an append just replaced: whatever an old mark
      still covers afterwards is unchanged. */
  lemma MarksCoverUnchanged(s: NodeState, e: LogEntry, prevIndex: nat, prevTerm: nat, d: string, j: nat)
    requires WellFormed(s)
    requires d in s.marks && 1 <= j <= |s.hist|
    ensures var t := Append(s, e, prevIndex, prevTerm);
            && t.marks.Keys == s.marks.Keys
            && (j <= t.marks[d] ==> j <= |t.hist| && t.hist[j - 1] == s.hist[j - 1])
            && (j <= s.marks[d] && j <= |t.hist| && t.hist[..j] == s.hist[..j] ==> j <= t.marks[d])
  {
    var t := Append(s, e, prevIndex, prevTerm);
    if t.hist != s.hist && e.index <= |s.hist| && e.index <= j <= |t.hist| {
      assert j == e.index;
      assert t.hist[j - 1] == e != s.hist[j - 1];
      assert t.hist[..j][j - 1] != s.hist[..j][j - 1];
    }
  }

  lemma {:induction false} ReplayStep(h: History, n: nat)
    requires n < |h|
    ensures Replay(h[..n + 1]) == Replay(h[..n])[h[n].command.key := h[n].command.value]
    ensures ResultsOf(h[..n + 1]) == ResultsOf(h[..n])[h[n].request := Decision(h[n])]
  {
    assert h[..n + 1][..n] == h[..n];
  }

  lemma NextKeeps(s: NodeState)
    requires Inv(s) && s.commit < |s.hist|
    ensures Inv(ApplyNext(s))
  {
    ReplayStep(s.hist, s.commit);
  }

  lemma {:induction false} ApplyKeeps(s: NodeState, index: nat)
    requires Inv(s) && index <= |s.hist|
    ensures Inv(ApplyThrough(s, index))
    decreases index
  {
    if index > s.commit {
      ApplyKeeps(s, index - 1);
      NextKeeps(ApplyThrough(s, index - 1));
    }
  }

  /** Commit is all or nothing: a match applies the complete contiguous prefix, so the state
      machine becomes the replay of exactly that prefix; anything else changes nothing. */
  lemma CommitIsAtomic(s: NodeState, index: nat, term: nat, request: string)
    requires Inv(s)
    ensures var t := AdvanceCommit(s, index, term, request);
            && Inv(t) && t.hist == s.hist && t.floor == s.floor && t.marks == s.marks
            && (if index > s.commit && CommitMatches(s, index, term, request)
                then t.commit == index && t.sm == Replay(s.hist[..index])
                else t == s)
  {
    if index > s.commit && CommitMatches(s, index, term, request) {
      ApplyKeeps(s, index);
    }
  }

  /** Installing a snapshot leaves the receiver with the sender's replayed prefix, whatever
      log it had; every mark above the new commit index covers only entries kept unchanged. */
  lemma InstallKeeps(s: NodeState, p: Snapshot)
    requires Inv(s) && SnapshotInv(p)
    ensures var t := Install(s, p);
            && Inv(t) && t.commit == Max(s.commit, |p.prefix|)
            && (s.commit < |p.prefix| ==> t.hist[..t.commit] == p.prefix)
            && (forall d, j :: d in t.marks && t.commit <= j < t.marks[d] && j < |s.hist| ==>
                                 j < |t.hist| && t.hist[j] == s.hist[j])
  {
    var t := Install(s, p);
    if s.commit < |p.prefix| {
      assert t.hist[..t.commit] == p.prefix;
    }
  }

  lemma MaybeCompactKeeps(s: NodeState, p: CompactionPolicy, frozen: bool)
    requires Inv(s)
    ensures var t := MaybeCompact(s, p, frozen);
            Inv(t) && t == s.(floor := t.floor) && s.floor <= t.floor && (frozen ==> t == s)
  {
  }

  // ------------------------------------------------------------- result cache

  predicate DistinctRequests(h: History) {
    forall i, j :: 0 <= i < j < |h| ==> h[i].request != h[j].request
  }

  lemma {:induction false} ResultsHold(h: History, i: nat)
    requires i < |h|
    ensures h[i].request in ResultsOf(h)
    ensures DistinctRequests(h) ==> ResultsOf(h)[h[i].request] == Decision(h[i])
  {
    var m := |h| - 1;
    if i < m {
      ResultsHold(h[..m], i);
      assert h[..m][i] == h[i];
    }
  }

  lemma {:induction false} FindMeans(log: seq<LogEntry>, request: string)
    ensures var f := FindByRequest(log, request);
            && (f.None? <==> forall i :: 0 <= i < |log| ==> log[i].request != request)
            && (f.Some? ==> f.value in log && f.value.request == request)
  {
    if log != [] {
      FindMeans(log[1..], request);
      assert log == [log[0]] + log[1..];
    }
  }

  /** Applying an entry of the history again changes nothing, one beyond the next is ignored, and
      the next one is applied. */
  lemma ApplyOneMeans(s: NodeState, i: nat)
    requires Inv(s) && DistinctRequests(s.hist) && i < |s.hist|
    ensures ApplyOne(s, s.hist[i]) == if i == s.commit then ApplyNext(s) else s
  {
    if i < s.commit {
      var applied := s.hist[..s.commit];
      ResultsHold(applied, i);
      assert applied[i] == s.hist[i];
      assert s.results[s.hist[i].request := Decision(s.hist[i])] == s.results;
    }
  }

  /** Any entry up to the next index leaves its decision in the cache, with its own request, term, index
      and result; only the next one moves the commit index and the state; one beyond changes
      nothing. */
  lemma AnyEntryApplied(s: NodeState, e: LogEntry)
    ensures var t := ApplyOne(s, e);
            && (e.index > s.commit + 1 ==> t == s)
            && (e.index <= s.commit + 1 ==>
                  var final := ClientResult(e.request, e.term, e.index, e.result, GlobalResponse, true, "");
                  e.request in t.results && t.results[e.request] == final)
            && (e.index <= s.commit ==> t == s.(results := t.results))
            && (e.index == s.commit + 1 ==>
                  t.commit == e.index && t.sm == s.sm[e.command.key := e.command.value] && t.hist == s.hist)
  {
  }

  /** A request ordered as new occurs nowhere in the history, not even in the compacted part:
      the applied part is in Results and everything else is in the retained log. */
  lemma OrderedIsNew(s: NodeState, term: nat, w: WriteRequest, draining: bool)
    requires Inv(s)
    requires WriteOutcome(s, term, w, draining).Ordered?
    ensures forall i :: 0 <= i < |s.hist| ==> s.hist[i].request != w.request
  {
    FindMeans(s.hist[s.floor..], w.request);
    forall i | 0 <= i < |s.hist| ensures s.hist[i].request != w.request {
      if i < s.commit {
        ResultsHold(s.hist[..s.commit], i);
      } else {
        assert s.hist[s.floor..][i - s.floor] == s.hist[i];
      }
    }
  }

  predicate ResultsStamped(h: History) {
    forall i :: 0 <= i < |h| ==> h[i].result == CommandResult(h[i].command)
  }

  /** Ordering keeps everything a sound history has: requests stay distinct. */
  lemma OrderExtends(s: NodeState, term: nat, w: WriteRequest, draining: bool)
    requires Inv(s) && DistinctRequests(s.hist) && ResultsStamped(s.hist)
    requires WriteOutcome(s, term, w, draining).Ordered?
    ensures var t := Write(s, term, w, draining);
            && Inv(t) && DistinctRequests(t.hist) && ResultsStamped(t.hist)
            && t == s.(hist := t.hist) && |t.hist| == |s.hist| + 1 && t.hist[..|s.hist|] == s.hist
            && t.hist[|s.hist|].term == term
  {
    OrderedIsNew(s, term, w, draining);
    var t := Write(s, term, w, draining);
    assert t.hist[..s.commit] == s.hist[..s.commit];
  }

  /** A retry of an applied request with the same command and origin is answered with the
      decision of its log entry, whether or not that entry has been compacted. */
  lemma RetryAnswered(s: NodeState, i: nat, term: nat, w: WriteRequest, draining: bool)
    requires Inv(s) && DistinctRequests(s.hist) && ResultsStamped(s.hist)
    requires i < s.commit
    requires s.hist[i].request == w.request && s.hist[i].command == w.command && s.hist[i].origin == w.origin
    ensures WriteOutcome(s, term, w, draining) == Settled(Decision(s.hist[i]))
  {
    var applied := s.hist[..s.commit];
    ResultsHold(applied, i);
    assert applied[i] == s.hist[i];
    var log := s.hist[s.floor..];
    FindMeans(log, w.request);
    if i >= s.floor {
      assert log[i - s.floor] == s.hist[i];
    } else {
      forall k | 0 <= k < |log| ensures log[k].request != w.request {
        assert log[k] == s.hist[s.floor + k];
      }
    }
  }

  // ------------------------------------------------- what the answers mean

  /** Completeness of the append: an entry right above an anchor the node holds is accepted, unless
      it disagrees with a committed entry above the floor, which is reported as such; on any other
      anchor term there it is a prefix mismatch. */
  lemma AnchoredAppend(s: NodeState, e: LogEntry, other: nat)
    requires WellFormed(s) && s.floor < e.index <= |s.hist| + 1
    ensures var prevTerm := TermAt(s.hist, e.index - 1);
            var held := e.index <= |s.hist|;
            var same := held && s.hist[e.index - 1].term == e.term && s.hist[e.index - 1].request == e.request;
            && (AppendOutcome(s, e, e.index - 1, prevTerm) == CommittedConflict <==> e.index <= s.commit && !same)
            && (AppendOutcome(s, e, e.index - 1, prevTerm) == Accepted <==> e.index > s.commit || same)
            && (e.index > 1 && other != prevTerm ==> AppendOutcome(s, e, e.index - 1, other) == PrefixMismatch)
  {
  }

  /** An accepted append above the floor either repeats an entry and changes nothing, or ends the
      history with the new entry; appending the same again changes nothing more. */
  lemma AppendEnds(s: NodeState, e: LogEntry, prevIndex: nat, prevTerm: nat)
    requires WellFormed(s) && e.index > s.floor && AppendOutcome(s, e, prevIndex, prevTerm) == Accepted
    ensures var t := Append(s, e, prevIndex, prevTerm);
            && 1 <= e.index <= |s.hist| + 1
            && (if e.index <= |s.hist| && SameIdentity(s.hist[e.index - 1], e) then t == s
                else t.hist == s.hist[..e.index - 1] + [e])
            && (prevIndex < e.index ==> AppendOutcome(t, e, prevIndex, prevTerm) == Accepted)
            && (prevIndex < e.index ==> Append(t, e, prevIndex, prevTerm) == t)
  {
  }

  /** A repeated notice is answered true without effect; a notice beyond the log, or of another
      entry, is answered false. */
  lemma NoticeAnswers(s: NodeState, index: nat, term: nat, request: string)
    requires WellFormed(s)
    ensures index <= s.commit ==> CommitMatches(s, index, term, request) && AdvanceCommit(s, index, term, request) == s
    ensures index > |s.hist| ==> !CommitMatches(s, index, term, request)
    ensures s.commit < index <= |s.hist| ==>
              (CommitMatches(s, index, term, request) <==>
               s.hist[index - 1].term == term && s.hist[index - 1].request == request)
  {
  }

  /** Automatic compaction happens exactly when it is enabled, nothing is frozen, more than the
      threshold has been applied since the floor, and something lies below the entries to retain;
      it then leaves exactly those above the floor. */
  lemma CompactsExactly(s: NodeState, p: CompactionPolicy, frozen: bool)
    requires WellFormed(s)
    ensures var t := MaybeCompact(s, p, frozen);
            && (t.floor != s.floor <==>
                p.threshold > 0 && !frozen && s.commit - s.floor > p.threshold && s.commit - s.floor > p.retain)
            && (t.floor != s.floor ==> s.commit - t.floor == p.retain && t == s.(floor := t.floor))
            && (t.floor == s.floor ==> t == s)
  {
  }

  /** What an install does to the part above the boundary. */
  lemma InstallTail(s: NodeState, p: Snapshot)
    requires s.commit < |p.prefix|
    requires |p.prefix| <= |s.hist| && s.hist[|p.prefix| - 1].term == p.prefix[|p.prefix| - 1].term ==>
               s.hist[..|p.prefix|] == p.prefix
    ensures var t, k := Install(s, p), |p.prefix|;
            && t.floor == t.commit == k && t.sm == p.sm
            && (forall r :: r in p.results ==> r in t.results && t.results[r] == p.results[r])
            && (forall r :: r in s.results && r !in p.results ==> r in t.results && t.results[r] == s.results[r])
            && (if k <= |s.hist| && s.hist[k - 1].term == p.prefix[k - 1].term
                then t.hist == s.hist && t.marks == s.marks
                else t.hist == p.prefix && t.marks.Keys == s.marks.Keys &&
                     forall d :: d in s.marks ==> t.marks[d] == if s.marks[d] > k then k else s.marks[d])
  {
    var k := |p.prefix|;
    if HoldsBoundary(s, p) {
      assert s.hist == s.hist[..k] + s.hist[k..];
    }
  }

  // ------------------------------------------------------------- client writes

  /** The retained log has entry i for the request. */
  predicate HeldAt(s: NodeState, i: int, request: string) {
    s.floor <= i < |s.hist| && s.hist[i].request == request
  }

  /** A write is new exactly when neither the results nor the retained log know its request; it is
      then refused as draining if and only if a handoff drains, and otherwise ordered: with the
      client's command and origin, the leader's term, and the index after the last. */
  lemma NewWrite(s: NodeState, term: nat, w: WriteRequest, draining: bool)
    requires WellFormed(s)
    ensures var reply := WriteOutcome(s, term, w, draining);
            var known := w.request in s.results || exists i :: HeldAt(s, i, w.request);
            && (reply.Draining? <==> draining && !known)
            && (reply.Ordered? <==> !draining && !known)
            && (reply.Ordered? ==>
                  var e := LogEntry(term, |s.hist| + 1, w.request, w.origin, w.command,
                                    w.command.key + "=" + w.command.value);
                  reply.entry == e && Write(s, term, w, draining) == s.(hist := s.hist + [e]))
            && (!reply.Ordered? ==> Write(s, term, w, draining) == s)
  {
    HeldFinds(s, w.request);
  }

  lemma HeldFinds(s: NodeState, request: string)
    requires WellFormed(s)
    ensures var f := FindByRequest(Retained(s), request);
            && (f.Some? <==> exists i :: HeldAt(s, i, request))
            && (f.Some? ==> exists i :: HeldAt(s, i, request) && s.hist[i] == f.value)
  {
    var log := s.hist[s.floor..];
    FindMeans(log, request);
    var f := FindByRequest(log, request);
    if f.Some? {
      var k :| 0 <= k < |log| && log[k] == f.value;
      assert HeldAt(s, s.floor + k, request) && s.hist[s.floor + k] == f.value;
    }
    if i :| HeldAt(s, i, request) {
      assert log[i - s.floor].request == request;
    }
  }

  /** A write whose request the retained log has at i: with the command and origin of that entry it
      is answered with its decision, or joined to it while undecided; with any other it is
      refused, whether or not a handoff drains. */
  lemma KnownWrite(s: NodeState, i: nat, term: nat, w: WriteRequest, draining: bool)
    requires WellFormed(s) && DistinctRequests(s.hist) && HeldAt(s, i, w.request)
    ensures var same := s.hist[i].command == w.command && s.hist[i].origin == w.origin;
            WriteOutcome(s, term, w, draining) ==
            if !same then Reused
            else if w.request in s.results then Settled(s.results[w.request])
            else Joined(s.hist[i])
  {
    HeldFinds(s, w.request);
  }

  /** A write whose request is settled but no longer retained is answered with the cached decision if
      and only if that decision lies at or below the floor and has the result of the client's own
      command; anything else is a request id used twice. */
  lemma CompactedWrite(s: NodeState, term: nat, w: WriteRequest, draining: bool)
    requires WellFormed(s) && w.request in s.results && !exists i :: HeldAt(s, i, w.request)
    ensures var final := s.results[w.request];
            WriteOutcome(s, term, w, draining) ==
            if final.index <= s.floor && final.result == w.command.key + "=" + w.command.value then Settled(final)
            else Reused
  {
    HeldFinds(s, w.request);
  }

  /** From request to state: a write ordered as new and then committed makes the state what the log
      before it makes, with the client's value at the client's key, and an identical retry is
      settled with the entry's term, its index, and the client's own result. */
  lemma WriteTakesEffect(s: NodeState, term: nat, w: WriteRequest, retryTerm: nat, draining: bool)
    requires Inv(s) && DistinctRequests(s.hist) && ResultsStamped(s.hist)
    requires WriteOutcome(s, term, w, false).Ordered?
    ensures var i := |s.hist| + 1;
            var t := AdvanceCommit(Write(s, term, w, false), i, term, w.request);
            && t.commit == i
            && t.sm == Replay(s.hist)[w.command.key := w.command.value]
            && WriteOutcome(t, retryTerm, w, draining) ==
               Settled(ClientResult(w.request, term, i, w.command.key + "=" + w.command.value,
                                    GlobalResponse, true, ""))
  {
    NewWrite(s, term, w, false);
    OrderExtends(s, term, w, false);
    var u := Write(s, term, w, false);
    var i := |s.hist| + 1;
    CommitIsAtomic(u, i, term, w.request);
    ReplayStep(u.hist, |s.hist|);
    assert u.hist[..i] == u.hist && u.hist[..|s.hist|] == s.hist;
    RetryAnswered(AdvanceCommit(u, i, term, w.request), |s.hist|, retryTerm, w, draining);
  }

  // ------------------------------------------------------------- streams

  predicate NoConflict(s: NodeState, msgs: seq<Stamped>)
    decreases |msgs|
  {
    msgs == [] ||
    (&& AppendOutcome(s, msgs[0].entry, msgs[0].prevIndex, msgs[0].prevTerm) != CommittedConflict
     && NoConflict(Append(s, msgs[0].entry, msgs[0].prevIndex, msgs[0].prevTerm), msgs[1..]))
  }

  /** A stream is fed entry by entry, mismatches included, and ends at the first committed conflict:
      nothing after it has any effect. */
  lemma {:induction false} FeedStops(s: NodeState, before: seq<Stamped>, m: Stamped, after: seq<Stamped>)
    requires NoConflict(s, before)
    ensures var t := Feed(s, before);
            Feed(s, before + ([m] + after)) ==
            if AppendOutcome(t, m.entry, m.prevIndex, m.prevTerm) == CommittedConflict then t
            else Feed(Append(t, m.entry, m.prevIndex, m.prevTerm), after)
    decreases |before|
  {
    var msgs := before + ([m] + after);
    if before == [] {
      assert msgs == [m] + after && msgs[1..] == after;
    } else {
      assert msgs[0] == before[0] && msgs[1..] == before[1..] + ([m] + after);
      FeedStops(Append(s, before[0].entry, before[0].prevIndex, before[0].prevTerm), before[1..], m, after);
    }
  }
}
