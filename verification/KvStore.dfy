/** Incremental persistence (internal/cdraft/kvstore.go): Save writes only what differs from
    in-memory mirrors of the durable contents; Load rebuilds the state from prefix scans.

    The engine is an atomic ordered map. Its key spaces "meta", "log:", "sm:" and "res:" are
    disjoint, so each is a map here; a log index stands for its storage key. Metadata is its
    encoded text; entries and results are stored as themselves, as under an injective codec. */
module KvStore {
  import opened Types
  import opened Orders
  import opened LogKeys

  /** What a node saves. */
  datatype Saved = Saved(meta: string, log: seq<LogEntry>, sm: map<string, string>, results: map<string, ClientResult>)

  const NOTHING_SAVED := Saved("", [], map[], map[])

  datatype Engine = Engine(
    meta: string,
    log: map<nat, LogEntry>,
    sm: map<string, string>,
    results: map<string, ClientResult>)

  const EMPTY_ENGINE := Engine("", map[], map[], map[])

  datatype Fingerprint = Fingerprint(index: nat, term: nat, request: string)

  function FingerprintOf(e: LogEntry): Fingerprint {
    Fingerprint(e.index, e.term, e.request)
  }

  /** A fingerprint tells a slot's index, term and request apart, and nothing else. */
  lemma FingerprintIdentity(a: LogEntry, b: LogEntry)
    ensures FingerprintOf(a) == FingerprintOf(b) <==> a.index == b.index && a.term == b.term && a.request == b.request
  {
  }

  /** Indices strictly increase and fit the 8-byte key. */
  predicate Ascending(log: seq<LogEntry>) {
    && (forall i :: 0 <= i < |log| ==> log[i].index < INDEX_LIMIT)
    && (forall i, j :: 0 <= i < j < |log| ==> log[i].index < log[j].index)
  }

  function ByIndex(log: seq<LogEntry>): map<nat, LogEntry> {
    if log == [] then map[] else ByIndex(log[..|log| - 1])[log[|log| - 1].index := log[|log| - 1]]
  }

  function Prints(log: map<nat, LogEntry>): map<nat, Fingerprint> {
    map i | i in log :: FingerprintOf(log[i])
  }

  /** Storing the whole state. */
  function Encode(s: Saved): Engine {
    Engine(s.meta, ByIndex(s.log), s.sm, s.results)
  }

  lemma {:induction false} ByIndexMeans(log: seq<LogEntry>)
    requires Ascending(log)
    ensures forall k :: 0 <= k < |log| ==> log[k].index in ByIndex(log) && ByIndex(log)[log[k].index] == log[k]
    ensures forall i :: i in ByIndex(log) ==> exists k :: 0 <= k < |log| && log[k].index == i
    ensures forall i :: i in ByIndex(log) ==> ByIndex(log)[i].index == i
  {
    if log != [] {
      var n := |log| - 1;
      var init := log[..n];
      ByIndexMeans(init);
      forall k | 0 <= k < |log| ensures log[k].index in ByIndex(log) && ByIndex(log)[log[k].index] == log[k] {
        if k < n { assert init[k] == log[k]; }
      }
      forall i | i in ByIndex(log) ensures exists k :: 0 <= k < |log| && log[k].index == i {
        if i != log[n].index {
          var k :| 0 <= k < |init| && init[k].index == i;
          assert log[k].index == i;
        }
      }
    }
  }

  // ------------------------------------------------------------- reading back

  /** The order in which a prefix scan visits the log keys. */
  ghost predicate IsScan(log: map<nat, LogEntry>, order: seq<nat>) {
    && (forall i :: i in log <==> i in order)
    && (forall k :: 0 <= k < |order| ==> order[k] < INDEX_LIMIT)
    && (forall j, k :: 0 <= j < k < |order| ==> Less(LogKey(order[j]), LogKey(order[k])))
  }

  predicate StrictlyUp(s: seq<nat>) {
    forall j, k :: 0 <= j < k < |s| ==> s[j] < s[k]
  }

  lemma SameTop(s: seq<nat>, t: seq<nat>)
    requires StrictlyUp(s) && StrictlyUp(t) && s != [] && t != [] && (forall x :: x in s <==> x in t)
    ensures s[|s| - 1] == t[|t| - 1]
  {
    assert s[|s| - 1] in t && t[|t| - 1] in s;
  }

  lemma BelowTop(s: seq<nat>, x: nat)
    requires StrictlyUp(s) && s != []
    ensures x in s[..|s| - 1] <==> x in s && x != s[|s| - 1]
  {
    assert s == s[..|s| - 1] + [s[|s| - 1]];
  }

  lemma {:induction false} StrictlyUpUnique(s: seq<nat>, t: seq<nat>)
    requires StrictlyUp(s) && StrictlyUp(t) && (forall x :: x in s <==> x in t)
    ensures s == t
  {
    assert (s != [] ==> s[0] in t) && (t != [] ==> t[0] in s);
    if s != [] && t != [] {
      SameTop(s, t);
      var u, v := s[..|s| - 1], t[..|t| - 1];
      forall x ensures x in u <==> x in v {
        BelowTop(s, x);
        BelowTop(t, x);
      }
      StrictlyUpUnique(u, v);
      assert s == u + [s[|s| - 1]] && t == v + [t[|t| - 1]];
    }
  }

  function Gather(log: map<nat, LogEntry>, order: seq<nat>): seq<LogEntry>
    requires forall k :: 0 <= k < |order| ==> order[k] in log
  {
    seq(|order|, k requires 0 <= k < |order| => log[order[k]])
  }

  /** Because keys sort as their indices, a scan gives the saved log back entry by entry. */
  lemma ScanRebuilds(log: seq<LogEntry>, order: seq<nat>)
    requires Ascending(log) && IsScan(ByIndex(log), order)
    ensures Gather(ByIndex(log), order) == log
  {
    ByIndexMeans(log);
    var indices := seq(|log|, k requires 0 <= k < |log| => log[k].index);
    forall j, k | 0 <= j < k < |order| ensures order[j] < order[k] {
      LogKeyOrder(order[j], order[k]);
    }
    forall x | x in indices || x in order ensures x in indices && x in order {
      if x in order {
        var k :| 0 <= k < |log| && log[k].index == x;
        assert indices[k] == x;
      }
    }
    StrictlyUpUnique(indices, order);
  }

  /** Every cell holds an entry of its own index. */
  predicate WellKeyed(log: map<nat, LogEntry>) {
    forall i :: i in log ==> log[i].index == i < INDEX_LIMIT
  }

  /** A scan visits the indices in increasing order. */
  lemma ScanUp(log: map<nat, LogEntry>, order: seq<nat>)
    requires IsScan(log, order)
    ensures StrictlyUp(order)
  {
    forall j, k | 0 <= j < k < |order| ensures order[j] < order[k] {
      LogKeyOrder(order[j], order[k]);
    }
  }

  /** Reading well-keyed cells in index order gives an ascending log that stores back to them. */
  lemma GatherStores(log: map<nat, LogEntry>, order: seq<nat>)
    requires WellKeyed(log) && StrictlyUp(order) && forall i :: i in log <==> i in order
    ensures Ascending(Gather(log, order)) && ByIndex(Gather(log, order)) == log
  {
    GatherAscends(log, order);
    forall i ensures i in log <==> i in ByIndex(Gather(log, order)) {
      CellStored(log, order, Gather(log, order), i);
    }
    forall i | i in log ensures i in ByIndex(Gather(log, order)) && ByIndex(Gather(log, order))[i] == log[i] {
      CellStored(log, order, Gather(log, order), i);
    }
  }

  lemma CellStored(log: map<nat, LogEntry>, order: seq<nat>, g: seq<LogEntry>, i: nat)
    requires Ascending(g) && |g| == |order| && forall j :: j in log <==> j in order
    requires forall k :: 0 <= k < |g| ==> order[k] in log && g[k] == log[order[k]] && g[k].index == order[k]
    ensures i in log <==> i in ByIndex(g)
    ensures i in log && i in ByIndex(g) ==> ByIndex(g)[i] == log[i]
  {
    ByIndexMeans(g);
    if i in log {
      var k :| 0 <= k < |order| && order[k] == i;
      assert g[k].index in ByIndex(g);
    }
    if i in ByIndex(g) {
      var k :| 0 <= k < |g| && g[k].index == i;
      assert order[k] in log;
    }
  }

  lemma GatherAscends(log: map<nat, LogEntry>, order: seq<nat>)
    requires WellKeyed(log) && StrictlyUp(order) && forall i :: i in log <==> i in order
    ensures var g := Gather(log, order);
            && Ascending(g)
            && forall k :: 0 <= k < |g| ==> g[k] == log[order[k]] && g[k].index == order[k]
  {
  }

  /** Different states are stored differently. */
  lemma EncodeInjective(s: Saved, t: Saved, order: seq<nat>)
    requires Ascending(s.log) && Ascending(t.log) && Encode(s) == Encode(t) && IsScan(ByIndex(s.log), order)
    ensures s == t
  {
    ScanRebuilds(s.log, order);
    ScanRebuilds(t.log, order);
  }

  method Least(s: set<nat>) returns (m: nat)
    requires s != {}
    ensures m in s && forall i :: i in s ==> m <= i
  {
    m :| m in s;
    var todo := s - {m};
    while todo != {}
      invariant todo <= s && m in s
      invariant forall i :: i in s && i !in todo ==> m <= i
      decreases |todo|
    {
      var i :| i in todo;
      todo := todo - {i};
      if i < m {
        m := i;
      }
    }
  }

  /** The engine's prefix scan over the log keys. */
  method ScanKeys(log: map<nat, LogEntry>) returns (order: seq<nat>)
    requires WellKeyed(log)
    ensures IsScan(log, order)
  {
    order := [];
    var todo := log.Keys;
    while todo != {}
      invariant todo <= log.Keys && StrictlyUp(order)
      invariant forall i :: i in log <==> i in todo || i in order
      invariant forall k, i :: 0 <= k < |order| && i in todo ==> order[k] < i
      decreases |todo|
    {
      var m := Least(todo);
      order := order + [m];
      todo := todo - {m};
    }
    UpIsScan(log, order);
  }

  /** Increasing index order is the engine's key order. */
  lemma UpIsScan(log: map<nat, LogEntry>, order: seq<nat>)
    requires WellKeyed(log) && StrictlyUp(order) && forall i :: i in log <==> i in order
    ensures IsScan(log, order)
  {
    forall k | 0 <= k < |order| ensures order[k] < INDEX_LIMIT {
      assert order[k] in log;
    }
    forall j, k | 0 <= j < k < |order| ensures Less(LogKey(order[j]), LogKey(order[k])) {
      LogKeyOrder(order[j], order[k]);
    }
  }

  // ------------------------------------------------------------- saving

  /** Loading after this save gives it back: no key of the state machine or the results has
      disappeared since the last save, and equal fingerprints mean equal entries. */
  predicate Appendable(prev: Engine, next: Saved) {
    && prev.sm.Keys <= next.sm.Keys
    && prev.results.Keys <= next.results.Keys
    && PrintsDetermine(prev.log, ByIndex(next.log))
  }

  /** Where both logs have the same fingerprint, they have the same entry. */
  predicate PrintsDetermine(a: map<nat, LogEntry>, b: map<nat, LogEntry>) {
    forall i :: i in a && i in b && FingerprintOf(a[i]) == FingerprintOf(b[i]) ==> a[i] == b[i]
  }

  /** The log slot after an incremental write: an unchanged fingerprint keeps the old contents. */
  function MergedLog(prev: map<nat, LogEntry>, next: map<nat, LogEntry>): map<nat, LogEntry> {
    map i | i in next :: if i in prev && FingerprintOf(prev[i]) == FingerprintOf(next[i]) then prev[i] else next[i]
  }

  /** What an incremental save makes of the durable contents. */
  function Merged(prev: Engine, next: Saved): Engine {
    Engine(next.meta, MergedLog(prev.log, ByIndex(next.log)), prev.sm + next.sm, prev.results + next.results)
  }

  /** The incremental save equals storing the whole state exactly when the save is appendable. */
  lemma MergedExact(prev: Engine, next: Saved)
    ensures Merged(prev, next) == Encode(next) <==> Appendable(prev, next)
  {
    var l := ByIndex(next.log);
    if Appendable(prev, next) {
      assert MergedLog(prev.log, l) == l;
      assert prev.sm + next.sm == next.sm && prev.results + next.results == next.results;
    }
    if Merged(prev, next) == Encode(next) {
      assert (prev.sm + next.sm).Keys == prev.sm.Keys + next.sm.Keys;
      assert (prev.results + next.results).Keys == prev.results.Keys + next.results.Keys;
      forall i | i in prev.log && i in l && FingerprintOf(prev.log[i]) == FingerprintOf(l[i])
        ensures prev.log[i] == l[i]
      {
        assert MergedLog(prev.log, l)[i] == prev.log[i];
      }
    }
  }

  function Changed<V(==)>(prev: map<string, V>, next: map<string, V>): map<string, V> {
    map k | k in next && (k !in prev || prev[k] != next[k]) :: next[k]
  }

  lemma ChangedSuffices<V>(prev: map<string, V>, next: map<string, V>)
    ensures prev + Changed(prev, next) == prev + next
    ensures Changed(prev, next) == map[] ==> prev + next == prev
  {
    assert prev + map[] == prev;
  }

  method Delta<V(==)>(prev: map<string, V>, next: map<string, V>) returns (puts: map<string, V>)
    ensures puts == Changed(prev, next)
  {
    puts := map[];
    var todo := next.Keys;
    while todo != {}
      invariant todo <= next.Keys
      invariant puts == map k | k in next && k !in todo && (k !in prev || prev[k] != next[k]) :: next[k]
      decreases |todo|
    {
      var k :| k in todo;
      todo := todo - {k};
      if k !in prev || prev[k] != next[k] {
        puts := puts[k := next[k]];
      }
    }
  }

  /** The log loop of Load: entries in the order the scan visits them. */
  method ReadLog(cells: map<nat, LogEntry>, order: seq<nat>) returns (log: seq<LogEntry>)
    requires forall k :: 0 <= k < |order| ==> order[k] in cells
    ensures log == Gather(cells, order)
  {
    log := [];
    for k := 0 to |order|
      invariant |log| == k && forall j :: 0 <= j < k ==> log[j] == cells[order[j]]
    {
      log := log + [cells[order[k]]];
    }
  }

  method FingerprintLog(log: seq<LogEntry>) returns (prints: map<nat, Fingerprint>)
    ensures prints == Prints(ByIndex(log))
  {
    prints := map[];
    for k := 0 to |log|
      invariant prints == Prints(ByIndex(log[..k]))
    {
      assert log[..k + 1][..k] == log[..k];
      prints := prints[log[k].index := FingerprintOf(log[k])];
    }
    assert log[..|log|] == log;
  }

  /** Durable indices that the log no longer holds: a truncated tail or a compacted prefix. */
  method Stale(last: map<nat, Fingerprint>, desired: map<nat, Fingerprint>) returns (deletes: set<nat>)
    ensures forall i :: i in deletes <==> i in last && i !in desired
  {
    deletes := {};
    var todo := last.Keys;
    while todo != {}
      invariant todo <= last.Keys
      invariant forall i :: i in deletes <==> i in last && i !in todo && i !in desired
      decreases |todo|
    {
      var i :| i in todo;
      todo := todo - {i};
      if i !in desired {
        deletes := deletes + {i};
      }
    }
  }

  predicate Unchanged(last: map<nat, Fingerprint>, e: LogEntry) {
    e.index in last && last[e.index] == FingerprintOf(e)
  }

  function Rewritten(last: map<nat, Fingerprint>, log: map<nat, LogEntry>): map<nat, LogEntry> {
    map i | i in log && !(i in last && last[i] == FingerprintOf(log[i])) :: log[i]
  }

  lemma RewrittenStep(last: map<nat, Fingerprint>, log: map<nat, LogEntry>, e: LogEntry)
    requires e.index !in log
    ensures Rewritten(last, log[e.index := e]) ==
            if Unchanged(last, e) then Rewritten(last, log) else Rewritten(last, log)[e.index := e]
  {
  }

  /** Entries that were appended or overwritten since the last save. */
  method LogDelta(last: map<nat, Fingerprint>, log: seq<LogEntry>) returns (puts: map<nat, LogEntry>)
    requires Ascending(log)
    ensures puts == Rewritten(last, ByIndex(log))
  {
    puts := map[];
    for k := 0 to |log|
      invariant puts == Rewritten(last, ByIndex(log[..k]))
    {
      var e := log[k];
      assert log[..k + 1][..k] == log[..k];
      NotYet(log, k);
      RewrittenStep(last, ByIndex(log[..k]), e);
      if !Unchanged(last, e) {
        puts := puts[e.index := e];
      }
    }
    assert log[..|log|] == log;
  }

  /** One atomic engine write. */
  datatype Batch = Batch(meta: Option<string>, deletes: set<nat>, puts: map<nat, LogEntry>,
                         sm: map<string, string>, results: map<string, ClientResult>)
  {
    predicate Empty() {
      meta.None? && deletes == {} && puts == map[] && sm == map[] && results == map[]
    }
  }

  function ApplyBatch(e: Engine, b: Batch): Engine {
    Engine(if b.meta.Some? then b.meta.value else e.meta,
           e.log - b.deletes + b.puts, e.sm + b.sm, e.results + b.results)
  }

  /** What the store believes to be durable. */
  datatype Mirror = Mirror(
    meta: string,
    log: map<nat, Fingerprint>,
    sm: map<string, string>,
    results: map<string, ClientResult>)

  const EMPTY_MIRROR := Mirror("", map[], map[], map[])

  function MirrorOf(e: Engine): Mirror {
    Mirror(e.meta, Prints(e.log), e.sm, e.results)
  }

  /** The batch a save computes from the mirrors. */
  function BatchFor(m: Mirror, s: Saved): Batch {
    var log := ByIndex(s.log);
    Batch(if m.meta != s.meta then Some(s.meta) else None, m.log.Keys - log.Keys, Rewritten(m.log, log),
          Changed(m.sm, s.sm), Changed(m.results, s.results))
  }

  /** A save writes exactly what differs from the mirrors: an entry whose fingerprint is new or other,
      a key whose value is new or other, the metadata if it is other; and it deletes exactly the
      indices no longer held. */
  lemma WritesDifferences(m: Mirror, s: Saved, i: nat, k: string)
    ensures var b, log := BatchFor(m, s), ByIndex(s.log);
            && (i in b.deletes <==> i in m.log && i !in log)
            && (i in b.puts <==> i in log && (i in m.log ==> m.log[i] != FingerprintOf(log[i])))
            && (i in b.puts ==> b.puts[i] == log[i])
            && (k in b.sm <==> k in s.sm && (k in m.sm ==> m.sm[k] != s.sm[k]))
            && (k in b.sm ==> b.sm[k] == s.sm[k])
            && (k in b.results <==> k in s.results && (k in m.results ==> m.results[k] != s.results[k]))
            && (k in b.results ==> b.results[k] == s.results[k])
            && (b.meta == if m.meta == s.meta then None else Some(s.meta))
  {
  }

  /** The mirrors after a save. */
  function Remembered(m: Mirror, s: Saved): Mirror {
    Mirror(s.meta, Prints(ByIndex(s.log)), m.sm + s.sm, m.results + s.results)
  }

  /** With mirrors that match the engine, the batch makes the merge and the mirrors keep matching;
      it is empty exactly when the merge changes nothing. */
  lemma MirroredBatch(e: Engine, s: Saved)
    ensures ApplyBatch(e, BatchFor(MirrorOf(e), s)) == Merged(e, s)
    ensures Remembered(MirrorOf(e), s) == MirrorOf(Merged(e, s))
    ensures BatchFor(MirrorOf(e), s).Empty() <==> Merged(e, s) == e
  {
    LogEffect(e.log, ByIndex(s.log));
    ChangedSuffices(e.sm, s.sm);
    ChangedSuffices(e.results, s.results);
  }

  /** A save through the empty mirrors of a store that was opened on existing contents and never
      loaded stores the whole state if and only if no key there is missing from the new state:
      nothing is ever deleted. */
  lemma UnloadedSaveExact(e: Engine, s: Saved)
    ensures ApplyBatch(e, BatchFor(EMPTY_MIRROR, s)) == Encode(s) <==>
            && e.log.Keys <= ByIndex(s.log).Keys && e.sm.Keys <= s.sm.Keys && e.results.Keys <= s.results.Keys
            && (s.meta == "" ==> e.meta == "")
  {
    var l := ByIndex(s.log);
    assert Rewritten(map[], l) == l && Changed(map[], s.sm) == s.sm && Changed(map[], s.results) == s.results;
    assert e.log - {} == e.log;
    OverlayExact(e.log, l);
    OverlayExact(e.sm, s.sm);
    OverlayExact(e.results, s.results);
  }

  /** Writing b over a leaves just b exactly when a has no other key. */
  lemma OverlayExact<K, V>(a: map<K, V>, b: map<K, V>)
    ensures a + b == b <==> a.Keys <= b.Keys
  {
    assert (a + b).Keys == a.Keys + b.Keys;
  }

  class KVStore {
    var engine: Engine
    var lastMeta: string
    var lastLog: map<nat, Fingerprint>
    var lastSM: map<string, string>
    var lastRes: map<string, ClientResult>

    ghost function Mirrors(): Mirror
      reads this
    {
      Mirror(lastMeta, lastLog, lastSM, lastRes)
    }

    /** NewKVStore on an engine that may already hold data: the mirrors start empty. */
    constructor (engine: Engine)
      ensures this.engine == engine && Mirrors() == EMPTY_MIRROR
    {
      this.engine := engine;
      lastMeta, lastLog, lastSM, lastRes := "", map[], map[], map[];
    }

    /** Load: the state that the engine's contents encode; the mirrors then describe them. */
    method Load() returns (s: Saved)
      requires WellKeyed(engine.log)
      modifies this`lastMeta, this`lastLog, this`lastSM, this`lastRes
      ensures Ascending(s.log) && Encode(s) == engine && Mirrors() == MirrorOf(engine)
    {
      var order := ScanKeys(engine.log);
      var log := ReadLog(engine.log, order);
      ScanUp(engine.log, order);
      GatherStores(engine.log, order);
      s := Saved(engine.meta, log, engine.sm, engine.results);
      var prints := FingerprintLog(log);
      lastMeta, lastLog, lastSM, lastRes := engine.meta, prints, engine.sm, engine.results;
    }

    method BuildBatch(s: Saved) returns (b: Batch)
      requires Ascending(s.log)
      ensures b == BatchFor(Mirrors(), s)
    {
      var desired := FingerprintLog(s.log);
      var deletes := Stale(lastLog, desired);
      var puts := LogDelta(lastLog, s.log);
      var smPuts := Delta(lastSM, s.sm);
      var resPuts := Delta(lastRes, s.results);
      assert deletes == lastLog.Keys - ByIndex(s.log).Keys;
      b := Batch(if lastMeta != s.meta then Some(s.meta) else None, deletes, puts, smPuts, resPuts);
    }

    /** Save, whatever the mirrors say. `writes` says whether the engine's atomic write succeeds if
        it is attempted. A failed save changes nothing; a successful one applies the batch, and the
        mirrors follow. */
    method Save(s: Saved, writes: bool) returns (ok: bool)
      requires Ascending(s.log)
      modifies this
      ensures ok <==> writes || BatchFor(old(Mirrors()), s).Empty()
      ensures engine == if ok then ApplyBatch(old(engine), BatchFor(old(Mirrors()), s)) else old(engine)
      ensures Mirrors() == if ok then Remembered(old(Mirrors()), s) else old(Mirrors())
    {
      var b := BuildBatch(s);
      ChangedSuffices(lastSM, s.sm);
      ChangedSuffices(lastRes, s.results);
      if b.Empty() {
        UnchangedLog(lastLog, ByIndex(s.log));
        EmptyBatch(engine, b);
        return true;
      }
      if !writes {
        return false;
      }
      engine := ApplyBatch(engine, b);
      lastMeta := s.meta;
      lastLog := FingerprintLog(s.log);
      if b.sm != map[] {
        lastSM := lastSM + s.sm;
      }
      if b.results != map[] {
        lastRes := lastRes + s.results;
      }
      return true;
    }
  }

  lemma EmptyBatch(e: Engine, b: Batch)
    requires b.Empty()
    ensures ApplyBatch(e, b) == e
  {
    assert e.log - {} + map[] == e.log && e.sm + map[] == e.sm && e.results + map[] == e.results;
  }

  /** With nothing stale and nothing rewritten, the mirror is the log's own fingerprints. */
  lemma UnchangedLog(last: map<nat, Fingerprint>, log: map<nat, LogEntry>)
    requires last.Keys - log.Keys == {} && Rewritten(last, log) == map[]
    ensures Prints(log) == last
  {
    forall i | i in log ensures i in last && last[i] == FingerprintOf(log[i]) {
      assert i !in Rewritten(last, log);
    }
    forall i | i in last ensures i in log {
      assert i !in last.Keys - log.Keys;
    }
  }

  lemma NotYet(log: seq<LogEntry>, k: nat)
    requires Ascending(log) && k < |log|
    ensures log[k].index !in ByIndex(log[..k])
  {
    ByIndexMeans(log[..k]);
  }

  /** The log part of the batch, applied to the durable log, is the merge. */
  lemma LogEffect(prev: map<nat, LogEntry>, next: map<nat, LogEntry>)
    ensures var deletes, puts := Prints(prev).Keys - next.Keys, Rewritten(Prints(prev), next);
            && prev - deletes + puts == MergedLog(prev, next)
            && Prints(MergedLog(prev, next)) == Prints(next)
            && (deletes == {} && puts == map[] <==> prev == MergedLog(prev, next))
  {
    var deletes, puts := Prints(prev).Keys - next.Keys, Rewritten(Prints(prev), next);
    assert prev - {} + map[] == prev;
    if prev == MergedLog(prev, next) {
      forall i | i in next ensures i in prev && FingerprintOf(prev[i]) == FingerprintOf(next[i]) {
        assert i in MergedLog(prev, next);
      }
    }
  }

  // ------------------------------------------------------------- runs

  /** A life of the store: saves, whose engine write succeeds or fails if attempted, and reopenings,
      each followed by a load. */
  datatype Event = SaveEvent(s: Saved, writes: bool) | Reopen

  /** A save returns success: it wrote, or there was nothing to write. */
  predicate Succeeds(e: Engine, ev: Event) {
    ev.SaveEvent? && (ev.writes || Merged(e, ev.s) == e)
  }

  function Durable(e: Engine, events: seq<Event>): Engine
    decreases |events|
  {
    if events == [] then e
    else Durable(if Succeeds(e, events[0]) then Merged(e, events[0].s) else e, events[1..])
  }

  /** The state of the last save that succeeded. */
  function LastSaved(last: Saved, events: seq<Event>): Saved
    decreases |events|
  {
    if events == [] then last
    else LastSaved(if Succeeds(Encode(last), events[0]) then events[0].s else last, events[1..])
  }

  predicate AllAppendable(last: Saved, events: seq<Event>)
    decreases |events|
  {
    events == [] ||
    (&& (events[0].SaveEvent? ==> Ascending(events[0].s.log))
     && if Succeeds(Encode(last), events[0])
        then Appendable(Encode(last), events[0].s) && AllAppendable(events[0].s, events[1..])
        else AllAppendable(last, events[1..]))
  }

  /** Durable refinement on the contents: after any sequence of succeeding and failing saves and
      reopenings, the store holds exactly the encoding of the last successfully saved state,
      provided every successful save was appendable. */
  lemma {:induction false} StoresLastSaved(last: Saved, events: seq<Event>)
    requires Ascending(last.log) && AllAppendable(last, events)
    ensures Durable(Encode(last), events) == Encode(LastSaved(last, events)) && Ascending(LastSaved(last, events).log)
    decreases |events|
  {
    if events != [] {
      if Succeeds(Encode(last), events[0]) {
        MergedExact(Encode(last), events[0].s);
        StoresLastSaved(events[0].s, events[1..]);
      } else {
        StoresLastSaved(last, events[1..]);
      }
    }
  }

  lemma EncodedWellKeyed(s: Saved)
    requires Ascending(s.log)
    ensures WellKeyed(ByIndex(s.log))
  {
    ByIndexMeans(s.log);
  }

  lemma {:induction false} DurableSnoc(e: Engine, events: seq<Event>, ev: Event)
    ensures var d := Durable(e, events);
            Durable(e, events + [ev]) == if Succeeds(d, ev) then Merged(d, ev.s) else d
    decreases |events|
  {
    if events == [] {
      assert events + [ev] == [ev];
    } else {
      assert (events + [ev])[1..] == events[1..] + [ev];
      DurableSnoc(if Succeeds(e, events[0]) then Merged(e, events[0].s) else e, events[1..], ev);
    }
  }

  lemma {:induction false} AppendablePrefix(last: Saved, events: seq<Event>, k: nat)
    requires k <= |events| && AllAppendable(last, events)
    ensures AllAppendable(last, events[..k])
    ensures k < |events| && events[k].SaveEvent? ==> Ascending(events[k].s.log)
    decreases k
  {
    if k > 0 {
      assert events[..k][1..] == events[1..][..k - 1];
      AppendablePrefix(if Succeeds(Encode(last), events[0]) then events[0].s else last, events[1..], k - 1);
    }
  }

  /** Durable refinement of the store itself: a KVStore driven through any such life, reopened on
      its own contents with empty mirrors and loaded again each time, answers every save as
      predicted, and a final load returns exactly the last successfully saved state. */
  method LoadGivesLastSaved(events: seq<Event>) returns (s: Saved)
    requires AllAppendable(NOTHING_SAVED, events)
    ensures s == LastSaved(NOTHING_SAVED, events)
  {
    var store := new KVStore(EMPTY_ENGINE);
    assert Encode(NOTHING_SAVED) == EMPTY_ENGINE;
    assert MirrorOf(EMPTY_ENGINE) == EMPTY_MIRROR;
    for k := 0 to |events|
      invariant fresh(store)
      invariant store.engine == Durable(EMPTY_ENGINE, events[..k]) && store.Mirrors() == MirrorOf(store.engine)
    {
      assert events[..k + 1] == events[..k] + [events[k]];
      DurableSnoc(EMPTY_ENGINE, events[..k], events[k]);
      AppendablePrefix(NOTHING_SAVED, events, k);
      match events[k] {
        case SaveEvent(state, writes) =>
          MirroredBatch(store.engine, state);
          var ok := store.Save(state, writes);
        case Reopen =>
          StoresLastSaved(NOTHING_SAVED, events[..k]);
          EncodedWellKeyed(LastSaved(NOTHING_SAVED, events[..k]));
          store := new KVStore(store.engine);
          var _ := store.Load();
      }
    }
    assert events[..|events|] == events;
    StoresLastSaved(NOTHING_SAVED, events);
    var last := LastSaved(NOTHING_SAVED, events);
    EncodedWellKeyed(last);
    store := new KVStore(store.engine);
    s := store.Load();
    var order := ScanKeys(store.engine.log);
    EncodeInjective(s, last, order);
  }
}
