/** The node as the program holds it: only the log above the snapshot floor, with snapshot
    metadata standing for the rest (internal/cdraft/log.go, internal/cdraft/rpc_node.go,
    internal/cdraft/telemetry.go). PersistentState is embedded by value in the node, so its
    fields are fields here. The ghost field `hist` is the full history; every method is proved
    against the meaning that NodeLog and Handoff give it on that history. */
module RpcNode {
  import opened Types
  import opened NodeLog
  import Elections
  import Handoff

  /** findEntryByIndex: a slice lookup by offset from the first retained entry. */
  function FindEntryByIndex(log: seq<LogEntry>, index: nat): Option<LogEntry> {
    if index == 0 || |log| == 0 then None
    else
      var first := log[0].index;
      if index < first || index >= first + |log| then None
      else
        var e := log[index - first];
        if e.index == index then Some(e) else None
  }

  /** The lookup finds exactly the retained entries. */
  lemma FindsRetained(hist: History, floor: nat, index: nat)
    requires Indexed(hist) && floor <= |hist|
    ensures FindEntryByIndex(hist[floor..], index) ==
            if floor < index <= |hist| then Some(hist[index - 1]) else None
  {
    var log := hist[floor..];
    if |log| > 0 {
      assert log[0] == hist[floor];
      if floor < index <= |hist| {
        assert log[index - log[0].index] == hist[index - 1];
      }
    }
  }

  /** findEntryByRequest. */
  method FindEntryByRequest(log: seq<LogEntry>, request: string) returns (r: Option<LogEntry>)
    ensures r == FindByRequest(log, request)
  {
    var i := 0;
    while i < |log|
      invariant 0 <= i <= |log|
      invariant FindByRequest(log, request) == FindByRequest(log[i..], request)
    {
      if log[i].request == request {
        return Some(log[i]);
      }
      assert log[i..][1..] == log[i + 1..];
      i := i + 1;
    }
    return None;
  }

  /** distinctDomains: the number of different non-empty names in the list. */
  method DistinctDomains(domains: seq<string>) returns (n: nat)
    ensures n == |set i | 0 <= i < |domains| && domains[i] != "" :: domains[i]|
  {
    var seen: set<string> := {};
    for i := 0 to |domains|
      invariant seen == set j | 0 <= j < i && domains[j] != "" :: domains[j]
    {
      if domains[i] != "" {
        seen := seen + {domains[i]};
      }
    }
    n := |seen|;
  }

  class Node {
    // persistent state
    var log: seq<LogEntry>
    var snapshotLastIndex: nat
    var snapshotLastTerm: nat
    var snapshotLastRequest: string
    var quorum: map<string, nat>
    var knownCommit: nat
    var applied: nat
    var results: map<string, ClientResult>
    var stateMachine: map<string, string>
    // node state
    var policy: CompactionPolicy
    var ctl: Handoff.Control

    ghost var hist: History

    ghost function View(): NodeState
      reads this
    {
      NodeState(hist, snapshotLastIndex, knownCommit, quorum, stateMachine, results)
    }

    ghost function ServerView(): Handoff.Server
      reads this
    {
      Handoff.Server(View(), policy, ctl)
    }

    /** The retained fields represent the history; applied and known commit coincide. */
    ghost predicate Valid()
      reads this
    {
      && WellFormed(View())
      && applied == knownCommit
      && log == hist[snapshotLastIndex..]
      && snapshotLastTerm == TermAt(hist, snapshotLastIndex)
      && (snapshotLastIndex > 0 ==> snapshotLastRequest == hist[snapshotLastIndex - 1].request)
    }

    constructor (self: string, policy: CompactionPolicy)
      ensures Valid() && View() == EMPTY_NODE
      ensures this.policy == policy && ctl.self == self && !ctl.Frozen()
    {
      log, snapshotLastIndex, snapshotLastTerm, snapshotLastRequest := [], 0, 0, "";
      quorum, knownCommit, applied, results, stateMachine := map[], 0, 0, map[], map[];
      this.policy := policy;
      ctl := Handoff.Control(self, Elections.NEW_ELECTOR, NO_GLOBAL_LEADER, false, false, 0);
      hist := [];
    }

    function LastLogIndex(): (n: nat)
      reads this
      ensures Valid() ==> n == |hist|
    {
      snapshotLastIndex + |log|
    }

    /** The summary voters compare does not depend on how much of the log was compacted. */
    function Summary(): (s: LogSummary)
      reads this
      ensures Valid() ==> s == SummaryOf(hist)
      ensures Valid() ==> s.lastIndex == |hist| && s.lastTerm == if |hist| > 0 then hist[|hist| - 1].term else 0
    {
      if |log| == 0 then LogSummary(snapshotLastTerm, snapshotLastIndex)
      else var last := log[|log| - 1]; LogSummary(last.term, last.index)
    }

    method RollbackQuorumAbove(ceiling: nat)
      modifies this`quorum
      ensures quorum == RolledBack(old(quorum), ceiling)
    {
      var todo := quorum.Keys;
      while todo != {}
        invariant todo <= quorum.Keys == old(quorum).Keys
        invariant forall d :: d in quorum ==>
                                quorum[d] == if d in todo then old(quorum)[d] else Min(old(quorum)[d], ceiling)
        decreases |todo|
      {
        var d :| d in todo;
        if quorum[d] > ceiling {
          quorum := quorum[d := ceiling];
        }
        todo := todo - {d};
      }
    }

    /** The consistency check of appendEntryChecked, across the snapshot boundary. */
    method HoldsPrefix(prevIndex: nat, prevTerm: nat) returns (ok: bool)
      requires Valid()
      ensures ok == PrefixMatches(View(), prevIndex, prevTerm)
    {
      FindsRetained(hist, snapshotLastIndex, prevIndex);
      if prevIndex > 0 {
        if prevIndex == snapshotLastIndex {
          return prevTerm == snapshotLastTerm;
        }
        var prev := FindEntryByIndex(log, prevIndex);
        return prev.Some? && prev.value.term == prevTerm;
      }
      return true;
    }

    method AppendEntryChecked(entry: LogEntry, prevIndex: nat, prevTerm: nat) returns (o: Outcome)
      requires Valid()
      modifies this`log, this`quorum, this`hist
      ensures Valid()
      ensures o == AppendOutcome(old(View()), entry, prevIndex, prevTerm)
      ensures View() == Append(old(View()), entry, prevIndex, prevTerm)
    {
      if entry.index <= snapshotLastIndex {
        return Accepted;
      }
      var anchored := HoldsPrefix(prevIndex, prevTerm);
      if !anchored {
        return PrefixMismatch;
      }
      FindsRetained(hist, snapshotLastIndex, entry.index);
      var existing := FindEntryByIndex(log, entry.index);
      if existing.Some? {
        if existing.value.term == entry.term && existing.value.request == entry.request {
          return Accepted;
        }
        if entry.index <= knownCommit {
          return CommittedConflict;
        }
        KeepAndPush(entry);
        RollbackQuorumAbove(entry.index - 1);
        return Accepted;
      }
      if entry.index != LastLogIndex() + 1 {
        return PrefixMismatch;
      }
      Push(entry);
      return Accepted;
    }

    method Push(entry: LogEntry)
      requires Valid() && entry.index == |hist| + 1
      modifies this`log, this`hist
      ensures Valid() && hist == old(hist) + [entry]
    {
      log := log + [entry];
      hist := hist + [entry];
    }

    /** The slice update of an append: keep what precedes the entry's index, then the entry. */
    method KeepAndPush(entry: LogEntry)
      requires Valid() && knownCommit < entry.index <= |hist| + 1
      modifies this`log, this`hist
      ensures hist == old(hist)[..entry.index - 1] + [entry]
      ensures Valid()
    {
      var keep := entry.index - snapshotLastIndex - 1;
      hist := hist[..entry.index - 1] + [entry];
      log := log[..keep] + [entry];
    }

    /** applyEntry on any entry: a gap is ignored, an entry already passed only refreshes its cached
        result. On the entries of the node's own history it keeps the node valid. */
    method ApplyEntry(entry: LogEntry)
      requires applied == knownCommit
      modifies this`knownCommit, this`applied, this`stateMachine, this`results
      ensures View() == ApplyOne(old(View()), entry) && applied == knownCommit
      ensures old(Valid()) && entry.index <= |hist| ==> Valid()
    {
      if entry.index != knownCommit + 1 && entry.index > knownCommit {
        return;
      }
      knownCommit := Max(knownCommit, entry.index);
      if entry.index == applied + 1 {
        stateMachine := stateMachine[entry.command.key := entry.command.value];
        applied := entry.index;
      }
      results := results[entry.request :=
        ClientResult(entry.request, entry.term, entry.index, entry.result, GlobalResponse, true, "")];
    }

    method CompactLog(compactIndex: nat) returns (done: bool)
      requires Valid()
      modifies this`log, this`snapshotLastIndex, this`snapshotLastTerm, this`snapshotLastRequest
      ensures Valid() && View() == Compact(old(View()), compactIndex)
      ensures done <==> CanCompact(old(View()), compactIndex)
    {
      if compactIndex <= snapshotLastIndex || compactIndex > applied {
        return false;
      }
      FindsRetained(hist, snapshotLastIndex, compactIndex);
      var boundary := FindEntryByIndex(log, compactIndex);
      if boundary.None? {
        return false;
      }
      log := log[compactIndex - snapshotLastIndex..];
      snapshotLastIndex := compactIndex;
      snapshotLastTerm := boundary.value.term;
      snapshotLastRequest := boundary.value.request;
      return true;
    }

    method MaybeCompactLocked()
      requires Valid()
      modifies this`log, this`snapshotLastIndex, this`snapshotLastTerm, this`snapshotLastRequest
      ensures Valid() && View() == MaybeCompact(old(View()), policy, ctl.Frozen())
    {
      if policy.threshold == 0 || ctl.migrating || ctl.draining {
        return;
      }
      if applied - snapshotLastIndex <= policy.threshold || applied <= policy.retain {
        return;
      }
      var target := applied - policy.retain;
      if target <= snapshotLastIndex {
        return;
      }
      var _ := CompactLog(target);
    }

    /** The collecting loop of advanceCommitLocked: every unapplied entry up to `index`, or
        nothing when one is missing. */
    method EntriesThrough(index: nat) returns (r: Option<seq<LogEntry>>)
      requires Valid() && knownCommit < index
      ensures r == if index <= |hist| then Some(hist[knownCommit..index]) else None
    {
      var next := knownCommit + 1;
      var entries: seq<LogEntry> := [];
      while next <= index
        invariant knownCommit < next <= index + 1 && next <= |hist| + 1
        invariant entries == hist[knownCommit..next - 1]
      {
        FindsRetained(hist, snapshotLastIndex, next);
        var entry := FindEntryByIndex(log, next);
        if entry.None? {
          return None;
        }
        entries := entries + [entry.value];
        next := next + 1;
      }
      return Some(entries);
    }

    /** applyEntry as advanceCommitLocked calls it: on the next unapplied entry. */
    method ApplyNextEntry(entry: LogEntry)
      requires Valid() && knownCommit < |hist| && entry == hist[knownCommit]
      modifies this`knownCommit, this`applied, this`stateMachine, this`results
      ensures Valid() && View() == ApplyNext(old(View()))
    {
      ApplyEntry(entry);
    }

    /** The applying loop of advanceCommitLocked. */
    method ApplyAll(entries: seq<LogEntry>)
      requires Valid() && knownCommit + |entries| <= |hist|
      requires entries == hist[knownCommit..knownCommit + |entries|]
      modifies this`knownCommit, this`applied, this`stateMachine, this`results
      ensures Valid() && View() == ApplyThrough(old(View()), old(knownCommit) + |entries|)
    {
      ghost var was := View();
      ghost var at := was.commit;
      var i := 0;
      ApplyOneMore(was, at);
      while i < |entries|
        invariant 0 <= i <= |entries| && Valid() && at == was.commit + i == knownCommit
        invariant View() == ApplyThrough(was, at)
      {
        assert entries[i] == hist[at];
        ApplyNextEntry(entries[i]);
        ApplyOneMore(was, at);
        at := at + 1;
        i := i + 1;
      }
    }

    /** advanceCommitLocked. */
    method AdvanceCommitLocked(index: nat, term: nat, request: string) returns (advanced: bool)
      requires Valid()
      modifies this`log, this`snapshotLastIndex, this`snapshotLastTerm, this`snapshotLastRequest,
               this`knownCommit, this`applied, this`stateMachine, this`results
      ensures Valid()
      ensures advanced <==> CommitMatches(old(View()), index, term, request)
      ensures View() == CommitStep(old(View()), policy, ctl.Frozen(), index, term, request)
    {
      if index <= knownCommit {
        return true;
      }
      var found := EntriesThrough(index);
      if found.None? {
        return false;
      }
      var entries := found.value;
      var top := entries[|entries| - 1];
      assert top == hist[index - 1];
      assert knownCommit + |entries| == index;
      if top.term != term || top.request != request {
        return false;
      }
      ApplyAll(entries);
      MaybeCompactLocked();
      return true;
    }

    /** The log part of installSnapshotState: keep the tail above a boundary entry it still
        holds, otherwise drop the whole log and the marks above the boundary. */
    method RetainAbove(lastIndex: nat, lastTerm: nat, ghost prefix: History)
      requires Valid() && knownCommit < lastIndex == |prefix| && lastTerm == TermAt(prefix, lastIndex)
      modifies this`log, this`quorum, this`hist
      ensures var s, p := old(View()), Snapshot(prefix, map[], map[]);
              && hist == Install(s, p).hist && quorum == Install(s, p).marks
              && log == hist[lastIndex..]
    {
      FindsRetained(hist, snapshotLastIndex, lastIndex);
      var existing := FindEntryByIndex(log, lastIndex);
      if existing.Some? && existing.value.term == lastTerm {
        assert log[0] == hist[snapshotLastIndex];
        log := log[lastIndex - log[0].index + 1..];
        hist := prefix + hist[lastIndex..];
        assert log == hist[lastIndex..];
      } else {
        log := [];
        hist := prefix;
        RollbackQuorumAbove(lastIndex);
      }
    }

    /** installSnapshotState. `prefix` is the history the shipped state stands for. */
    method InstallSnapshotState(lastIndex: nat, lastTerm: nat, lastRequest: string,
                                sm: map<string, string>, res: map<string, ClientResult>, ghost prefix: History)
      requires Valid()
      requires Indexed(prefix)
      requires lastIndex == |prefix| && lastTerm == TermAt(prefix, lastIndex)
      requires lastIndex > 0 ==> lastRequest == prefix[lastIndex - 1].request
      modifies this`log, this`snapshotLastIndex, this`snapshotLastTerm, this`snapshotLastRequest,
               this`knownCommit, this`applied, this`stateMachine, this`results, this`quorum, this`hist
      ensures Valid() && View() == Install(old(View()), Snapshot(prefix, sm, res))
    {
      if lastIndex <= applied || lastIndex <= snapshotLastIndex {
        return;
      }
      RetainAbove(lastIndex, lastTerm, prefix);
      snapshotLastIndex, snapshotLastTerm, snapshotLastRequest := lastIndex, lastTerm, lastRequest;
      stateMachine := sm;
      results := results + res;
      applied := lastIndex;
      knownCommit := Max(knownCommit, lastIndex);
    }

    /** buildSnapshotRequestLocked: refused only when nothing is applied; otherwise it names
        the applied boundary and carries the applied state. */
    method BuildSnapshot() returns (ok: bool, lastIndex: nat, lastTerm: nat, lastRequest: string,
                                    sm: map<string, string>, res: map<string, ClientResult>)
      requires Valid()
      ensures ok <==> knownCommit > 0
      ensures ok ==> var p := TakeSnapshot(View());
                     && sm == p.sm && res == p.results
                     && lastIndex == |p.prefix| && lastTerm == TermAt(p.prefix, lastIndex)
                     && lastRequest == p.prefix[lastIndex - 1].request
    {
      ok, lastIndex, lastTerm, lastRequest, sm, res := false, applied, 0, "", stateMachine, results;
      if lastIndex == 0 {
        return;
      }
      FindsRetained(hist, snapshotLastIndex, lastIndex);
      var entry := FindEntryByIndex(log, lastIndex);
      if entry.Some? {
        lastTerm, lastRequest := entry.value.term, entry.value.request;
      } else {
        assert lastIndex == snapshotLastIndex;
        lastTerm, lastRequest := snapshotLastTerm, snapshotLastRequest;
      }
      ok := true;
    }

    /** collectTailEntries. None is the panic of its first allocation, whose capacity
        barrier - after underflows when after is beyond the barrier. */
    method CollectTailEntries(after: nat, barrier: nat) returns (r: Option<seq<Stamped>>)
      requires Valid()
      ensures r == if after <= barrier then Some(TailOf(View(), after, barrier)) else None
    {
      if after > barrier {
        return None;
      }
      var tail: seq<Stamped> := [];
      var index := after + 1;
      while index <= barrier
        invariant after < index <= barrier + 1
        invariant index - 1 <= |hist| || index == after + 1
        invariant after < snapshotLastIndex ==> index == after + 1
        invariant |tail| == index - 1 - after
        invariant forall k :: 0 <= k < |tail| ==> after + k < |hist| && tail[k] == StampAt(hist, after + k)
      {
        FindsRetained(hist, snapshotLastIndex, index);
        FindsRetained(hist, snapshotLastIndex, index - 1);
        var entry := FindEntryByIndex(log, index);
        if entry.None? {
          assert tail == TailOf(View(), after, barrier);
          return Some(tail);
        }
        var prevTerm := 0;
        if index > 1 {
          var prev := FindEntryByIndex(log, index - 1);
          if prev.Some? {
            prevTerm := prev.value.term;
          } else if index - 1 == snapshotLastIndex {
            prevTerm := snapshotLastTerm;
          }
        }
        tail := tail + [Stamped(Wire(entry.value), index - 1, prevTerm)];
        index := index + 1;
      }
      assert tail == TailOf(View(), after, barrier);
      return Some(tail);
    }

    /** The receiving side of catchUp: entries of a future term refuse the whole stream;
        otherwise they are appended in order until one conflicts with a committed entry. */
    method CatchUp(entries: seq<Stamped>, isDomainLeader: bool) returns (refused: bool)
      requires Valid()
      modifies this`log, this`quorum, this`hist
      ensures Valid()
      ensures refused <==> !isDomainLeader || !ctl.leader.Valid() ||
                           exists i :: 0 <= i < |entries| && entries[i].entry.term > ctl.elector.globalTerm
      ensures View() == if refused then old(View()) else Feed(old(View()), entries)
    {
      if !isDomainLeader || !ctl.leader.Valid() {
        return true;
      }
      for i := 0 to |entries|
        invariant forall k :: 0 <= k < i ==> entries[k].entry.term <= ctl.elector.globalTerm
      {
        if entries[i].entry.term > ctl.elector.globalTerm {
          return true;
        }
      }
      refused := false;
      var i := 0;
      while i < |entries|
        invariant 0 <= i <= |entries| && Valid()
        invariant Feed(old(View()), entries) == Feed(View(), entries[i..])
      {
        var m := entries[i];
        assert entries[i..][0] == m && entries[i..][1..] == entries[i + 1..];
        var o := AppendEntryChecked(m.entry, m.prevIndex, m.prevTerm);
        if o == CommittedConflict {
          return;
        }
        i := i + 1;
      }
    }

    /** Write, up to the point where the entry is ordered. */
    method ServeWrite(w: WriteRequest, able: bool) returns (reply: Handoff.Reply)
      requires Valid()
      modifies this`log, this`hist
      ensures Valid()
      ensures reply == Handoff.WriteReplyOf(old(ServerView()), w, able)
      ensures ServerView() == Handoff.ServeWrite(old(ServerView()), w, able)
    {
      if || ctl.elector.stage != Serving || !able
         || ctl.elector.globalRole != Leader || ctl.leader.domainLeader.node != ctl.self
      {
        return Handoff.NotLeader;
      }
      var existing := FindEntryByRequest(log, w.request);
      if ctl.draining && w.request !in results && existing.None? {
        return Handoff.Answer(Draining);
      }
      if w.request in results {
        var final := results[w.request];
        if existing.Some? {
          if existing.value.command != w.command || existing.value.origin != w.origin {
            return Handoff.Answer(Reused);
          }
        } else if final.index > snapshotLastIndex || final.result != CommandResult(w.command) {
          return Handoff.Answer(Reused);
        }
        return Handoff.Answer(Settled(final));
      }
      if existing.Some? {
        if existing.value.command != w.command || existing.value.origin != w.origin {
          return Handoff.Answer(Reused);
        }
        return Handoff.Answer(Joined(existing.value));
      }
      var entry := LogEntry(ctl.leader.term, Summary().lastIndex + 1, w.request, w.origin, w.command,
                            CommandResult(w.command));
      Push(entry);
      return Handoff.Answer(Ordered(entry));
    }

    /** The locked start of initiateMigration. */
    method BeginMigration(target: Option<DomainIdentity>) returns (started: bool)
      requires Valid()
      modifies this`ctl
      ensures Valid() && started == Handoff.Starts(old(ctl), target)
      ensures ServerView() == Handoff.Begin(old(ServerView()), target)
    {
      if ctl.migrating {
        return false;
      }
      if target.None? || !target.value.Valid() || target.value.node == ctl.self {
        return false;
      }
      var barrier := Summary().lastIndex;
      ctl := ctl.(migrating := true);
      ctl := ctl.(draining := true);
      ctl := ctl.(barrier := barrier);
      return true;
    }

    /** revokeGlobalLeadershipForHandoffLocked. */
    method RevokeForHandoff()
      modifies this`ctl
      ensures ctl == Handoff.Revoke(old(ctl))
    {
      if ctl.elector.globalRole == Leader && ctl.leader.domainLeader.node == ctl.self {
        ctl := ctl.(leader := NO_GLOBAL_LEADER);
        ctl := ctl.(elector := Elections.RevokeGlobal(ctl.elector));
      }
    }

    /** The end of initiateMigration, adopting the new leader when the target accepted. */
    method FinishMigration(accepted: Option<(DomainIdentity, nat)>)
      modifies this`ctl
      ensures ctl == Handoff.Finish(if accepted.Some? then Handoff.Adopt(old(ctl), accepted.value.0, accepted.value.1)
                                    else old(ctl))
    {
      if accepted.Some? {
        var (target, newTerm) := accepted.value;
        if newTerm >= ctl.elector.globalTerm {
          ctl := ctl.(leader := GlobalIdentity(target, newTerm));
          ctl := ctl.(elector := ctl.elector.(globalTerm := newTerm, globalLeader := ctl.leader));
        }
      }
      ctl := ctl.(migrating := false, draining := false, barrier := 0);
    }

    /** Take over the higher marks learned from other Domain Leaders. */
    method RaiseMarks(consensus: set<string>, known: map<string, nat>)
      modifies this`quorum
      ensures Learned(old(quorum), quorum, consensus, known)
    {
      var todo := known.Keys;
      while todo != {}
        invariant todo <= known.Keys
        invariant Learned(old(quorum), quorum, consensus, map d | d in known && d !in todo :: known[d])
        decreases |todo|
      {
        var d :| d in todo;
        if d in consensus && known[d] > MarkOf(quorum, d) {
          quorum := quorum[d := known[d]];
        }
        todo := todo - {d};
      }
    }

    /** The highest mark of any other consensus domain. */
    method HighestOther(local: string, consensus: set<string>) returns (held: nat)
      ensures held > 0 ==> exists d :: d in consensus && d != local && MarkOf(quorum, d) == held
      ensures forall d :: d in consensus && d != local ==> MarkOf(quorum, d) <= held
    {
      held := 0;
      var todo := quorum.Keys;
      while todo != {}
        invariant todo <= quorum.Keys
        invariant held > 0 ==> exists d :: d in consensus && d != local && MarkOf(quorum, d) == held
        invariant forall d :: d in quorum && d !in todo && d in consensus && d != local ==> MarkOf(quorum, d) <= held
        decreases |todo|
      {
        var d :| d in todo;
        if d != local && d in consensus && quorum[d] > held {
          held := quorum[d];
          assert MarkOf(quorum, d) == held;
        }
        todo := todo - {d};
      }
    }

    /** The highest two-domain-backed index this node holds, or something already committed. */
    method RecoveryTarget(local: string, consensus: set<string>) returns (target: nat)
      requires Valid()
      ensures target > knownCommit ==> target <= |hist| && Backed(quorum, local, consensus, quorum, target)
      ensures forall i :: Max(target, knownCommit) < i <= |hist| ==> !Backed(quorum, local, consensus, quorum, i)
    {
      var globalHeld := MarkOf(quorum, local);
      var otherHeld := HighestOther(local, consensus);
      target := Min(globalHeld, otherHeld);
      ghost var highest := target;
      while target > knownCommit
        invariant target <= highest && (target < highest ==> |hist| <= target)
      {
        FindsRetained(hist, snapshotLastIndex, target);
        if FindEntryByIndex(log, target).Some? {
          break;
        }
        target := target - 1;
      }
    }

    /** The locked part of recoverCommittedPrefix. `known` holds the marks learned from the
        Domain Leaders of the consensus domains `consensus`. The commit index rises only to an
        index covered by this domain's mark and by the mark of another consensus domain, and
        only over entries this node holds; no higher such index is left behind. */
    method RecoverCommittedPrefix(local: string, consensus: set<string>, known: map<string, nat>)
      returns (raised: bool)
      requires Valid()
      modifies this`log, this`snapshotLastIndex, this`snapshotLastTerm, this`snapshotLastRequest,
               this`knownCommit, this`applied, this`stateMachine, this`results, this`quorum
      ensures Valid() && hist == old(hist) && old(knownCommit) <= knownCommit <= |hist|
      ensures raised <==> knownCommit > old(knownCommit)
      ensures Learned(old(quorum), quorum, consensus, known)
      ensures forall i :: old(knownCommit) < i <= |hist| && Backed(old(quorum), local, consensus, known, i) ==>
                            knownCommit >= i
      ensures var was := old(View()).(marks := quorum);
              View() == if raised then MaybeCompact(ApplyThrough(was, knownCommit), policy, ctl.Frozen()) else was
      ensures raised ==> Backed(quorum, local, consensus, quorum, knownCommit)
      ensures forall i :: knownCommit < i <= |hist| ==> !Backed(quorum, local, consensus, quorum, i)
    {
      RaiseMarks(consensus, known);
      assert View() == old(View()).(marks := quorum);
      LearnedBacks(old(quorum), quorum, local, consensus, known);
      raised := CommitBacked(local, consensus);
    }

    /** Commit to the highest index with two-domain evidence that this node holds. */
    method CommitBacked(local: string, consensus: set<string>) returns (raised: bool)
      requires Valid()
      modifies this`log, this`snapshotLastIndex, this`snapshotLastTerm, this`snapshotLastRequest,
               this`knownCommit, this`applied, this`stateMachine, this`results
      ensures Valid() && hist == old(hist) && old(knownCommit) <= knownCommit <= |hist|
      ensures raised <==> knownCommit > old(knownCommit)
      ensures var was := old(View());
              View() == if raised then MaybeCompact(ApplyThrough(was, knownCommit), policy, ctl.Frozen()) else was
      ensures raised ==> Backed(quorum, local, consensus, quorum, knownCommit)
      ensures forall i :: knownCommit < i <= |hist| ==> !Backed(quorum, local, consensus, quorum, i)
    {
      var target := RecoveryTarget(local, consensus);
      if target <= knownCommit {
        return false;
      }
      CommitHeld(target);
      return true;
    }

    /** Commit through an entry this node holds, by that entry's own identity. */
    method CommitHeld(target: nat)
      requires Valid() && knownCommit < target <= |hist|
      modifies this`log, this`snapshotLastIndex, this`snapshotLastTerm, this`snapshotLastRequest,
               this`knownCommit, this`applied, this`stateMachine, this`results
      ensures Valid() && View() == MaybeCompact(ApplyThrough(old(View()), target), policy, ctl.Frozen())
    {
      FindsRetained(hist, snapshotLastIndex, target);
      var entry := FindEntryByIndex(log, target).value;
      var _ := AdvanceCommitLocked(target, entry.term, entry.request);
    }
  }

  function MarkOf(marks: map<string, nat>, d: string): nat {
    if d in marks then marks[d] else 0
  }

  /** The marks after learning: of a learned consensus domain, no lower than before or than learned,
      and one of the two; of every other domain, as before. */
  ghost predicate Learned(was: map<string, nat>, now: map<string, nat>, consensus: set<string>,
                          known: map<string, nat>)
  {
    && (forall d :: d in known && d in consensus && known[d] > 0 ==> d in now && now[d] >= known[d])
    && (forall d :: d in was ==> d in now && now[d] >= was[d])
    && (forall d :: d in now ==>
          (d in was && now[d] == was[d]) || (d in known && d in consensus && now[d] == known[d]))
  }

  /** Two-domain evidence for an index: the leader's own mark covers it, and so does a known mark of
      another consensus domain. */
  ghost predicate Backed(marks: map<string, nat>, local: string, consensus: set<string>,
                         known: map<string, nat>, index: nat)
  {
    && local in marks && marks[local] >= index
    && exists d :: d in consensus && d != local && d in known && known[d] >= index
  }

  /** What was backed by a learned mark is backed by the marks after learning. */
  lemma LearnedBacks(was: map<string, nat>, now: map<string, nat>, local: string, consensus: set<string>,
                     known: map<string, nat>)
    requires Learned(was, now, consensus, known)
    ensures forall i: nat :: i > 0 && Backed(was, local, consensus, known, i) ==> Backed(now, local, consensus, now, i)
  {
    forall i: nat | i > 0 && Backed(was, local, consensus, known, i) ensures Backed(now, local, consensus, now, i) {
      var d :| d in consensus && d != local && d in known && known[d] >= i;
      assert d in now && now[d] >= i;
    }
  }
}
