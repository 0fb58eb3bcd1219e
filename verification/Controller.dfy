/** The migration controller (internal/optimizer/optimizer.go:228-299) over any sequence of
    decision windows and migration results. Costs are exact reals; times are integers with
    0 for the zero time. */
module Controller {

  datatype Policy = Policy(minImprovement: real, confirmations: int, cooldown: int)

  datatype State = State(candidate: string, streak: nat, lastMigration: int)

  const FRESH := State("", 0, 0)

  datatype Window = Window(current: string, recommended: string, currentLs: real, recommendedLs: real, now: int)

  datatype Call = Observe(w: Window) | Record(success: bool, at: int)

  /** The window recommends leaving the current domain with the required improvement. */
  predicate Qualifies(p: Policy, w: Window) {
    && w.recommended != "" && w.recommended != w.current
    && w.currentLs > 0.0 && w.recommendedLs < w.currentLs * (1.0 - p.minImprovement)
  }

  /** The improvement asked for: another domain is recommended, and the fraction of the current cost
      that it saves is above the policy's minimum. */
  lemma QualifiesMeans(p: Policy, w: Window)
    ensures Qualifies(p, w) ==> w.recommended != "" && w.recommended != w.current && w.currentLs > 0.0
    ensures w.recommended != "" && w.recommended != w.current && w.currentLs > 0.0 ==>
              (Qualifies(p, w) <==> (w.currentLs - w.recommendedLs) / w.currentLs > p.minImprovement)
  {
    if w.currentLs > 0.0 {
      Fraction(w.currentLs, w.recommendedLs, p.minImprovement);
    }
  }

  lemma Fraction(current: real, recommended: real, least: real)
    requires current > 0.0
    ensures recommended < current * (1.0 - least) <==> (current - recommended) / current > least
  {
    var saved := (current - recommended) / current;
    assert saved * current == current - recommended;
    if saved > least {
      assert (saved - least) * current > 0.0;
    } else {
      assert (least - saved) * current >= 0.0;
    }
  }

  predicate CoolingDown(p: Policy, s: State, now: int) {
    s.lastMigration != 0 && now - s.lastMigration < p.cooldown
  }

  /** The streak this window completes. */
  function Extended(p: Policy, s: State, w: Window): nat {
    if !Qualifies(p, w) then 0 else if w.recommended == s.candidate then s.streak + 1 else 1
  }

  predicate Confirmed(p: Policy, s: State, w: Window) {
    Qualifies(p, w) && Extended(p, s, w) >= p.confirmations
  }

  function Answer(p: Policy, s: State, w: Window): string {
    if Confirmed(p, s, w) && !CoolingDown(p, s, w.now) then w.recommended else ""
  }

  function Next(p: Policy, s: State, c: Call): State {
    match c
    case Observe(w) =>
      if !Qualifies(p, w) || Confirmed(p, s, w) then s.(candidate := "", streak := 0)
      else s.(candidate := w.recommended, streak := Extended(p, s, w))
    case Record(success, at) => if success then s.(lastMigration := at) else s
  }

  class Controller {
    const policy: Policy
    var candidate: string
    var streak: nat
    var lastMigration: int

    function View(): State
      reads this
    {
      State(candidate, streak, lastMigration)
    }

    constructor (policy: Policy)
      ensures this.policy == policy && View() == FRESH
    {
      this.policy := policy;
      candidate, streak, lastMigration := "", 0, 0;
    }

    method Observe(w: Window) returns (target: string)
      modifies this
      ensures View() == Next(policy, old(View()), Call.Observe(w))
      ensures target == Answer(policy, old(View()), w)
    {
      if w.recommended == "" || w.recommended == w.current {
        candidate, streak := "", 0;
        return "";
      }
      if w.currentLs <= 0.0 || w.recommendedLs >= w.currentLs * (1.0 - policy.minImprovement) {
        candidate, streak := "", 0;
        return "";
      }
      if w.recommended == candidate {
        streak := streak + 1;
      } else {
        candidate := w.recommended;
        streak := 1;
      }
      if streak < policy.confirmations {
        return "";
      }
      if lastMigration != 0 && w.now - lastMigration < policy.cooldown {
        candidate, streak := "", 0;
        return "";
      }
      candidate, streak := "", 0;
      return w.recommended;
    }

    method RecordResult(success: bool, now: int)
      modifies this
      ensures View() == Next(policy, old(View()), Record(success, now))
    {
      if success {
        lastMigration := now;
      }
    }
  }

  // ------------------------------------------------------------- runs

  function After(p: Policy, calls: seq<Call>): State {
    if calls == [] then FRESH else Next(p, After(p, calls[..|calls| - 1]), calls[|calls| - 1])
  }

  /** The windows observed so far. */
  function Windows(calls: seq<Call>): seq<Window> {
    if calls == [] then []
    else
      var last := calls[|calls| - 1];
      Windows(calls[..|calls| - 1]) + (if last.Observe? then [last.w] else [])
  }

  /** Call number k is an observation answered with the target t. */
  predicate Triggers(p: Policy, calls: seq<Call>, k: nat, t: string) {
    k < |calls| && calls[k].Observe? && t != "" && Answer(p, After(p, calls[..k]), calls[k].w) == t
  }

  function Needed(p: Policy): nat {
    if p.confirmations < 1 then 1 else p.confirmations
  }

  /** The last n windows all recommend t with the required improvement. */
  predicate Agree(p: Policy, ws: seq<Window>, n: nat, t: string) {
    n <= |ws| && forall j :: |ws| - n <= j < |ws| ==> ws[j].recommended == t && Qualifies(p, ws[j])
  }

  lemma {:induction false} StreakAgrees(p: Policy, calls: seq<Call>)
    ensures Agree(p, Windows(calls), After(p, calls).streak, After(p, calls).candidate)
  {
    if calls != [] {
      StreakAgrees(p, calls[..|calls| - 1]);
    }
  }

  /** The moment of the last successful migration on record, 0 if none. */
  function LastSuccess(calls: seq<Call>): int {
    if calls == [] then 0
    else
      var last := calls[|calls| - 1];
      if last.Record? && last.success then last.at else LastSuccess(calls[..|calls| - 1])
  }

  lemma {:induction false} CooldownTracks(p: Policy, calls: seq<Call>)
    ensures After(p, calls).lastMigration == LastSuccess(calls)
  {
    if calls != [] {
      CooldownTracks(p, calls[..|calls| - 1]);
    }
  }

  /** Hysteresis: a trigger for t means that the last max(1, Confirmations) windows all
      recommended t away from the current domain with the required improvement, and that the
      cooldown since the last successful migration has passed. */
  lemma TriggerIsConfirmed(p: Policy, calls: seq<Call>, k: nat, t: string)
    requires Triggers(p, calls, k, t)
    ensures Agree(p, Windows(calls[..k + 1]), Needed(p), t)
    ensures LastSuccess(calls[..k]) != 0 ==> calls[k].w.now - LastSuccess(calls[..k]) >= p.cooldown
  {
    var before := calls[..k];
    assert calls[..k + 1][..k] == before;
    StreakAgrees(p, before);
    CooldownTracks(p, before);
    var ws := Windows(before);
    assert Windows(calls[..k + 1]) == ws + [calls[k].w];
    assert Agree(p, ws + [calls[k].w], Extended(p, After(p, before), calls[k].w), t);
  }

  /** After a trigger the streak never exceeds the number of windows observed since. */
  lemma {:induction false} StreakSince(p: Policy, calls: seq<Call>, k: nat, t: string, m: nat)
    requires Triggers(p, calls, k, t) && k < m <= |calls|
    ensures After(p, calls[..m]).streak + |Windows(calls[..k + 1])| <= |Windows(calls[..m])|
    decreases m
  {
    assert calls[..m][..m - 1] == calls[..m - 1];
    if m > k + 1 {
      StreakSince(p, calls, k, t, m - 1);
    }
  }

  /** Two triggers are at least max(1, Confirmations) windows apart. */
  lemma TriggersApart(p: Policy, calls: seq<Call>, k1: nat, t1: string, k2: nat, t2: string)
    requires Triggers(p, calls, k1, t1) && Triggers(p, calls, k2, t2) && k1 < k2
    ensures |Windows(calls[..k2 + 1])| - |Windows(calls[..k1 + 1])| >= Needed(p)
  {
    StreakSince(p, calls, k1, t1, k2);
    assert calls[..k2 + 1][..k2] == calls[..k2];
  }

  // ------------------------------------------------------------- exactly when

  /** How many windows up to the last one agree, without interruption, on a qualifying target. */
  function Unbroken(p: Policy, ws: seq<Window>): nat {
    if ws == [] || !Qualifies(p, ws[|ws| - 1]) then 0
    else
      var init := ws[..|ws| - 1];
      1 + if init != [] && init[|init| - 1].recommended == ws[|ws| - 1].recommended then Unbroken(p, init) else 0
  }

  /** Counting to l in rounds of n. */
  function Cycle(l: nat, n: nat): (c: nat)
    requires n > 0
    ensures c < n
  {
    if l == 0 || Cycle(l - 1, n) + 1 == n then 0 else Cycle(l - 1, n) + 1
  }

  lemma {:induction false} AtLeastOnce(k: nat, n: nat)
    requires k >= 1
    ensures k * n >= n
  {
    if k > 1 {
      AtLeastOnce(k - 1, n);
    }
  }

  lemma MoreRounds(q1: nat, q2: nat, n: nat)
    ensures q1 > q2 ==> q1 * n >= q2 * n + n
  {
    if q1 > q2 {
      AtLeastOnce(q1 - q2, n);
    }
  }

  lemma RemainderIs(x: nat, q: nat, r: nat, n: nat)
    requires r < n && x == q * n + r
    ensures x % n == r
  {
    MoreRounds(q, x / n, n);
    MoreRounds(x / n, q, n);
    assert x == (x / n) * n + x % n;
  }

  lemma {:induction false} CycleIsRemainder(l: nat, n: nat)
    requires n > 0
    ensures Cycle(l, n) == l % n
  {
    if l == 0 {
      RemainderIs(0, 0, 0, n);
    } else {
      CycleIsRemainder(l - 1, n);
      var q := (l - 1) / n;
      RemainderIs(l, if Cycle(l, n) == 0 then q + 1 else q, Cycle(l, n), n);
    }
  }

  /** The state after a sequence of windows: the streak counts the unbroken agreement in rounds of
      the confirmations needed. */
  predicate Counts(p: Policy, s: State, ws: seq<Window>) {
    && s.streak == Cycle(Unbroken(p, ws), Needed(p))
    && s.candidate == if s.streak > 0 && ws != [] then ws[|ws| - 1].recommended else ""
  }

  lemma WindowCounts(p: Policy, s: State, ws: seq<Window>, w: Window)
    requires Counts(p, s, ws)
    ensures Counts(p, Next(p, s, Observe(w)), ws + [w])
    ensures var agreed := Unbroken(p, ws + [w]);
            Confirmed(p, s, w) <==> agreed > 0 && Cycle(agreed, Needed(p)) == 0
  {
    var more := ws + [w];
    assert more[..|more| - 1] == ws;
    var agreed := Unbroken(p, more);
    if Qualifies(p, w) {
      assert Extended(p, s, w) == Cycle(agreed - 1, Needed(p)) + 1;
    }
  }

  /** Every time the confirmations are reached, whether or not the cooldown lets the trigger
      through, counting starts over. */
  lemma {:induction false} StreakIsUnbroken(p: Policy, calls: seq<Call>)
    ensures Counts(p, After(p, calls), Windows(calls))
  {
    if calls != [] {
      var before, last := calls[..|calls| - 1], calls[|calls| - 1];
      StreakIsUnbroken(p, before);
      if last.Observe? {
        WindowCounts(p, After(p, before), Windows(before), last.w);
      } else {
        assert Windows(calls) == Windows(before);
      }
    }
  }

  /** Exactly when a window triggers, after any calls: it recommends t, the agreement on t that it
      ends has a length divisible by max(1, Confirmations), and the cooldown since the last
      successful migration has passed. */
  lemma TriggersExactly(p: Policy, calls: seq<Call>, k: nat, t: string)
    requires k < |calls| && calls[k].Observe?
    ensures var agreed, since := Unbroken(p, Windows(calls[..k + 1])), LastSuccess(calls[..k]);
            Triggers(p, calls, k, t) <==>
            && calls[k].w.recommended == t && agreed > 0 && agreed % Needed(p) == 0
            && (since != 0 ==> calls[k].w.now - since >= p.cooldown)
  {
    var before, w := calls[..k], calls[k].w;
    assert calls[..k + 1][..k] == before;
    StreakIsUnbroken(p, before);
    CooldownTracks(p, before);
    WindowCounts(p, After(p, before), Windows(before), w);
    CycleIsRemainder(Unbroken(p, Windows(before) + [w]), Needed(p));
  }
}
