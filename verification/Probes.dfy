/** Probes: the state kept from the results, and the polling scheduler. */
module Probes {
  import opened Wrappers

  // ------------------------------------------------------------------ state from results

  datatype Result = Result(at: int, ok: bool)

  datatype Status = Unknown | Up | Down

  const RECENT := 20

  /** Failures at the end of the history. */
  function TrailingFailures(history: seq<Result>): nat {
    if history == [] || history[|history| - 1].ok then 0 else 1 + TrailingFailures(history[..|history| - 1])
  }

  predicate SeenSuccess(history: seq<Result>) {
    exists r :: r in history && r.ok
  }

  /** The status told from the whole history: down on enough failures in a row, else up once a success was seen. */
  function StatusOf(history: seq<Result>, failuresBeforeDown: int): Status {
    if TrailingFailures(history) >= Max(1, failuresBeforeDown) then Down
    else if SeenSuccess(history) then Up
    else Unknown
  }

  function NewestFirst(history: seq<Result>): seq<Result> {
    if history == [] then [] else [history[|history| - 1]] + NewestFirst(history[..|history| - 1])
  }

  function First(results: seq<Result>, n: nat): seq<Result> {
    if |results| <= n then results else results[..n]
  }

  /** When the status last changed, or when the state was created. */
  function SinceOf(history: seq<Result>, failuresBeforeDown: int, created: int): int {
    if history == [] then created
    else
      var init := history[..|history| - 1];
      if StatusOf(history, failuresBeforeDown) != StatusOf(init, failuresBeforeDown) then history[|history| - 1].at
      else SinceOf(init, failuresBeforeDown, created)
  }

  lemma StatusAfter(history: seq<Result>, r: Result, limit: int)
    ensures StatusOf(history + [r], limit) ==
      if r.ok then Up else if TrailingFailures(history) + 1 >= Max(1, limit) then Down else StatusOf(history, limit)
  {
    assert (history + [r])[..|history|] == history;
    if r.ok {
      assert r in history + [r];
    } else {
      assert SeenSuccess(history) ==> SeenSuccess(history + [r]);
    }
  }

  lemma NewestFirstAfter(history: seq<Result>, r: Result)
    ensures NewestFirst(history + [r]) == [r] + NewestFirst(history)
  {
    assert (history + [r])[..|history|] == history;
  }

  /** The status changed with result k. */
  predicate ChangedAt(history: seq<Result>, failuresBeforeDown: int, k: nat)
    requires k < |history|
  {
    StatusOf(history[..k + 1], failuresBeforeDown) != StatusOf(history[..k], failuresBeforeDown)
  }

  /** `since` is the time of the last result that changed the status, or of the creation if none did. */
  lemma {:induction false} SinceIs(history: seq<Result>, failuresBeforeDown: int, created: int, k: nat)
    requires k <= |history| && (k > 0 ==> ChangedAt(history, failuresBeforeDown, k - 1))
    requires forall m :: k <= m < |history| ==> !ChangedAt(history, failuresBeforeDown, m)
    ensures SinceOf(history, failuresBeforeDown, created) == if k == 0 then created else history[k - 1].at
    decreases |history| - k, |history|
  {
    hide StatusOf;
    var n := |history|;
    if n > 0 {
      assert history[..n] == history;
      if k < n {
        assert !ChangedAt(history, failuresBeforeDown, n - 1);
        var init := history[..n - 1];
        forall m | 0 <= m < n - 1
          ensures ChangedAt(init, failuresBeforeDown, m) <==> ChangedAt(history, failuresBeforeDown, m)
        {
          assert init[..m] == history[..m] && init[..m + 1] == history[..m + 1];
        }
        SinceIs(init, failuresBeforeDown, created, k);
      }
    }
  }

  /** The recent results are the last twenty: number i is the one that came i results before the last. */
  lemma RecentAre(history: seq<Result>)
    ensures var r := First(NewestFirst(history), RECENT);
      && |r| == (if |history| < 20 then |history| else 20)
      && forall i :: 0 <= i < |r| ==> r[i] == history[|history| - 1 - i]
  {
    NewestFirstIs(history);
  }

  lemma {:induction false} NewestFirstIs(history: seq<Result>)
    ensures |NewestFirst(history)| == |history|
    ensures forall i :: 0 <= i < |history| ==> NewestFirst(history)[i] == history[|history| - 1 - i]
  {
    if history != [] {
      NewestFirstIs(history[..|history| - 1]);
    }
  }

  /** The failures in a row are the results after the last success. */
  lemma {:induction false} TrailingFailuresAre(history: seq<Result>, n: nat)
    requires n <= |history| && (n < |history| ==> history[|history| - 1 - n].ok)
    requires forall i :: |history| - n <= i < |history| ==> !history[i].ok
    ensures TrailingFailures(history) == n
  {
    if n > 0 {
      TrailingFailuresAre(history[..|history| - 1], n - 1);
    }
  }

  class ProbeState {
    var status: Status
    var since: int
    var consecutiveFailures: nat
    var last: Option<Result>
    var recent: seq<Result>

    /** The state is the one told from the history of results, for a fixed failure limit. */
    ghost predicate Reflects(history: seq<Result>, limit: int, created: int)
      reads this
    {
      && status == StatusOf(history, limit)
      && since == SinceOf(history, limit, created)
      && consecutiveFailures == TrailingFailures(history)
      && last == (if history == [] then None else Some(history[|history| - 1]))
      && recent == First(NewestFirst(history), RECENT)
    }

    constructor (created: int)
      ensures forall limit: int :: Reflects([], limit, created)
    {
      status, since, consecutiveFailures, last, recent := Unknown, created, 0, None, [];
    }

    method Record(result: Result, failuresBeforeDown: int, ghost history: seq<Result>, ghost created: int)
      requires Reflects(history, failuresBeforeDown, created)
      modifies this
      ensures Reflects(history + [result], failuresBeforeDown, created)
    {
      StatusAfter(history, result, failuresBeforeDown);
      NewestFirstAfter(history, result);
      assert (history + [result])[..|history|] == history;
      last := Some(result);
      recent := [result] + recent;
      if |recent| > RECENT {
        recent := recent[..RECENT] + recent[RECENT + 1..];
      }
      consecutiveFailures := if result.ok then 0 else consecutiveFailures + 1;
      var next := if result.ok then Up else if consecutiveFailures >= Max(1, failuresBeforeDown) then Down else status;
      if next != status {
        status := next;
        since := result.at;
      }
    }
  }

  // ------------------------------------------------------------------ the scheduler

  const SECOND: int := 10_000_000

  /** `fixed`: the next fixed hour after now, for a probe with a schedule (None: no more). */
  datatype Probe = Probe(id: string, runnable: bool, plan: string, interval: int, scheduled: bool, fixed: Option<int>)

  datatype Next = Next(at: int, plan: string)

  const NEVER: int := 3_155_378_975_999_999_999

  /** What one tick decides for one probe: its next run, and whether it starts now. */
  function Plan(p: Probe, next: Option<Next>, running: bool, now: int): (Option<Next>, bool) {
    if !p.runnable || running then (next, false)
    else
      var known := next.Some? && next.value.plan == p.plan;
      if p.scheduled then
        if !known then (if p.fixed.Some? then Some(Next(p.fixed.value, p.plan)) else next, false)
        else if next.value.at > now then (next, false)
        else (Some(Next(if p.fixed.Some? then p.fixed.value else NEVER, p.plan)), true)
      else if known && next.value.at > now then (next, false)
      else (Some(Next(now + Max(10, p.interval) * SECOND, p.plan)), true)
  }

  /** The next run after a tick: planned for a probe, `otherwise` for an identifier without one. */
  function Kept(p: Option<Probe>, next: Option<Next>, running: bool, now: int, otherwise: Option<Next>): Option<Next> {
    if p.Some? then Plan(p.value, next, running, now).0 else otherwise
  }

  function NextOf(nextRun: map<string, Next>, id: string): Option<Next> {
    if id in nextRun then Some(nextRun[id]) else None
  }

  ghost predicate DistinctIds(probes: seq<Probe>) {
    forall i, j :: 0 <= i < j < |probes| ==> probes[i].id != probes[j].id
  }

  function Find(probes: seq<Probe>, id: string): Option<Probe> {
    if probes == [] then None
    else if probes[|probes| - 1].id == id then Some(probes[|probes| - 1])
    else Find(probes[..|probes| - 1], id)
  }

  lemma {:induction false} FindInPrefix(probes: seq<Probe>, i: nat)
    requires DistinctIds(probes) && i < |probes|
    ensures Find(probes[..i], probes[i].id) == None
    ensures forall id ::
              Find(probes[..i + 1], id)
              == if id == probes[i].id then Some(probes[i]) else Find(probes[..i], id)
  {
    assert probes[..i + 1][..i] == probes[..i];
    FindIsIn(probes[..i], probes[i].id);
  }

  lemma {:induction false} FindIsIn(probes: seq<Probe>, id: string)
    ensures Find(probes, id).Some? ==> Find(probes, id).value in probes && Find(probes, id).value.id == id
    ensures Find(probes, id).None? ==> forall p :: p in probes ==> p.id != id
  {
    if probes != [] {
      FindIsIn(probes[..|probes| - 1], id);
      assert probes == probes[..|probes| - 1] + [probes[|probes| - 1]];
    }
  }

  /** The identifiers whose probe starts a run at this tick. */
  function StartedBy(nextRun: map<string, Next>, running: set<string>, probes: seq<Probe>, now: int): set<string> {
    set p | p in probes && Plan(p, NextOf(nextRun, p.id), p.id in running, now).1 :: p.id
  }

  lemma StartedAre(nextRun: map<string, Next>, running: set<string>, probes: seq<Probe>, now: int, id: string)
    requires DistinctIds(probes)
    ensures id in StartedBy(nextRun, running, probes, now) <==>
      Find(probes, id).Some? && Plan(Find(probes, id).value, NextOf(nextRun, id), id in running, now).1
  {
    FindIsIn(probes, id);
    if id in StartedBy(nextRun, running, probes, now) {
      var p :| p in probes && Plan(p, NextOf(nextRun, p.id), p.id in running, now).1 && p.id == id;
      var i :| 0 <= i < |probes| && probes[i] == p;
      var j :| 0 <= j < |probes| && probes[j] == Find(probes, id).value;
      assert i == j;
    }
  }

  /** A tick: each probe's next run is planned on its own, and what belongs to no probe is forgotten. */
  ghost predicate IsPlanned(before: map<string, Next>, running: set<string>, probes: seq<Probe>, now: int,
      after: map<string, Next>) {
    forall id :: NextOf(after, id) == Kept(Find(probes, id), NextOf(before, id), id in running, now, None)
  }

  class Scheduler {
    var nextRun: map<string, Next>
    var running: set<string>

    constructor ()
      ensures nextRun == map[] && running == {}
    {
      nextRun, running := map[], {};
    }

    /** One tick over the probes: those that are due start, and the rest waits. */
    method Tick(probes: seq<Probe>, now: int) returns (started: set<string>)
      requires DistinctIds(probes)
      modifies this
      ensures IsPlanned(old(nextRun), old(running), probes, now, nextRun)
      ensures started == StartedBy(old(nextRun), old(running), probes, now) && started !! old(running)
      ensures running == old(running) + started
    {
      started := {};
      for i := 0 to |probes|
        invariant forall id ::
          NextOf(nextRun, id) ==
            Kept(Find(probes[..i], id), NextOf(old(nextRun), id), id in old(running), now, NextOf(old(nextRun), id))
        invariant forall id :: id in started <==>
          Find(probes[..i], id).Some?
            && Plan(Find(probes[..i], id).value, NextOf(old(nextRun), id), id in old(running), now).1
        invariant running == old(running) + started && started !! old(running)
      {
        var p := probes[i];
        FindInPrefix(probes, i);
        var (next, start) := Plan(p, NextOf(nextRun, p.id), p.id in running, now);
        if next.Some? {
          nextRun := nextRun[p.id := next.value];
        }
        if start {
          running, started := running + {p.id}, started + {p.id};
        }
      }
      assert probes[..|probes|] == probes;
      forall id ensures id in started <==> id in StartedBy(old(nextRun), old(running), probes, now) {
        StartedAre(old(nextRun), old(running), probes, now, id);
      }
      nextRun := map id | id in nextRun && Find(probes, id).Some? :: nextRun[id];
    }

    /** A run that ends frees its probe. */
    method Finish(id: string)
      modifies this`running
      ensures running == old(running) - {id}
    {
      running := running - {id};
    }
  }

  // ------------------------------------------------------------------ runs of the scheduler

  // Ticks and the ends of runs, in any order. A run started by a tick is registered as running after it was
  // started; one that ends before that removes nothing, and stays registered.

  /** `alive`: the probes whose run has not ended. */
  datatype State = State(nextRun: map<string, Next>, running: set<string>, alive: set<string>)

  /** `early`: the runs that end before they are registered. */
  datatype Action = Ticked(probes: seq<Probe>, now: int, early: set<string>) | Finished(id: string)

  ghost predicate Step(s: State, a: Action, s': State) {
    match a
    case Ticked(probes, now, early) =>
      var started := StartedBy(s.nextRun, s.running, probes, now);
      && DistinctIds(probes) && early <= started
      && IsPlanned(s.nextRun, s.running, probes, now, s'.nextRun)
      && s'.running == s.running + started
      && s'.alive == s.alive + (started - early)
    case Finished(id) =>
      id in s.alive && s' == s.(running := s.running - {id}, alive := s.alive - {id})
  }

  /** States and the actions between them. What goes on at first is registered. */
  ghost predicate Trace(states: seq<State>, actions: seq<Action>) {
    && |states| == |actions| + 1
    && states[0].alive <= states[0].running
    && forall i :: 0 <= i < |actions| ==> Step(states[i], actions[i], states[i + 1])
  }

  predicate Starts(s: State, a: Action, id: string) {
    a.Ticked? && id in StartedBy(s.nextRun, s.running, a.probes, a.now)
  }

  lemma {:induction false} AliveIsRunning(states: seq<State>, actions: seq<Action>, i: nat)
    requires Trace(states, actions) && i < |states|
    ensures states[i].alive <= states[i].running
  {
    if i > 0 {
      AliveIsRunning(states, actions, i - 1);
      assert Step(states[i - 1], actions[i - 1], states[i - 1 + 1]);
    }
  }

  /** Registered without a run: the run ended too early. */
  predicate IsStuck(s: State, id: string) {
    id in s.running && id !in s.alive
  }

  lemma RunningDoesNotStart(s: State, a: Action, id: string)
    requires a.Ticked? ==> DistinctIds(a.probes)
    ensures id in s.running ==> !Starts(s, a, id)
  {
    if a.Ticked? {
      StartedAre(s.nextRun, s.running, a.probes, a.now, id);
    }
  }

  lemma StuckStays(s: State, a: Action, s': State, id: string)
    requires IsStuck(s, id) && Step(s, a, s')
    ensures IsStuck(s', id) && !Starts(s, a, id)
  {
    RunningDoesNotStart(s, a, id);
  }

  lemma {:induction false} StuckForGood(states: seq<State>, actions: seq<Action>, i: nat, j: nat, id: string)
    requires Trace(states, actions) && i <= j < |states| && IsStuck(states[i], id)
    ensures IsStuck(states[j], id)
    ensures j < |actions| ==> !Starts(states[j], actions[j], id)
    decreases j
  {
    if i < j {
      StuckForGood(states, actions, i, j - 1, id);
      assert Step(states[j - 1], actions[j - 1], states[j - 1 + 1]);
      StuckStays(states[j - 1], actions[j - 1], states[j], id);
    }
    if j < |actions| {
      assert Step(states[j], actions[j], states[j + 1]);
      StuckStays(states[j], actions[j], states[j + 1], id);
    }
  }

  lemma {:induction false} AliveUntilFinished(states: seq<State>, actions: seq<Action>, i: nat, j: nat, id: string)
    requires Trace(states, actions) && i <= j < |states| && id in states[i].alive
    requires forall k :: i <= k < j ==> actions[k] != Finished(id)
    ensures id in states[j].alive
    decreases j
  {
    if i < j {
      AliveUntilFinished(states, actions, i, j - 1, id);
      assert Step(states[j - 1], actions[j - 1], states[j - 1 + 1]);
    }
  }

  /** Between any two starts of a probe, the run of the first one has ended. */
  lemma RunsDoNotOverlap(states: seq<State>, actions: seq<Action>, i: nat, j: nat, id: string) returns (k: nat)
    requires Trace(states, actions) && i < j < |actions|
    requires Starts(states[i], actions[i], id) && Starts(states[j], actions[j], id)
    ensures i < k < j && actions[k] == Finished(id)
  {
    assert Step(states[i], actions[i], states[i + 1]) && Step(states[j], actions[j], states[j + 1]);
    RunningDoesNotStart(states[j], actions[j], id);
    AliveIsRunning(states, actions, j);
    if IsStuck(states[i + 1], id) {
      StuckForGood(states, actions, i + 1, j, id);
    }
    if forall k :: i < k < j ==> actions[k] != Finished(id) {
      AliveUntilFinished(states, actions, i + 1, j, id);
    }
    k :| i < k < j && actions[k] == Finished(id);
  }

  // ------------------------------------------------------------------ spacing

  /** From action i to action j, the probe is there with the same interval and plan at every tick. */
  ghost predicate SamePlan(actions: seq<Action>, i: nat, j: nat, id: string, plan: string, interval: int)
    requires i <= j < |actions|
  {
    forall k :: i <= k <= j && actions[k].Ticked? ==> HasPlan(Find(actions[k].probes, id), plan, interval)
  }

  predicate HasPlan(p: Option<Probe>, plan: string, interval: int) {
    p.Some? && !p.value.scheduled && p.value.plan == plan && p.value.interval == interval
  }

  lemma PlannedAt(s: State, a: Action, s': State, id: string, plan: string, interval: int)
    requires Step(s, a, s') && a.Ticked? && HasPlan(Find(a.probes, id), plan, interval)
    ensures Starts(s, a, id) ==> NextOf(s'.nextRun, id) == Some(Next(a.now + Max(10, interval) * SECOND, plan))
    ensures !Starts(s, a, id) ==> NextOf(s'.nextRun, id) == NextOf(s.nextRun, id)
    ensures Starts(s, a, id) && NextOf(s.nextRun, id).Some? && NextOf(s.nextRun, id).value.plan == plan ==>
      NextOf(s.nextRun, id).value.at <= a.now
  {
    StartedAre(s.nextRun, s.running, a.probes, a.now, id);
  }

  lemma {:induction false} NextStaysUntilDue(states: seq<State>, actions: seq<Action>, i: nat, j: nat, id: string,
      plan: string, interval: int)
    requires Trace(states, actions) && i < j < |actions| && SamePlan(actions, i, j, id, plan, interval)
    requires Starts(states[i], actions[i], id)
    requires forall k :: i < k < j ==> !Starts(states[k], actions[k], id)
    ensures NextOf(states[j].nextRun, id) == Some(Next(actions[i].now + Max(10, interval) * SECOND, plan))
    decreases j
  {
    assert Step(states[j - 1], actions[j - 1], states[j - 1 + 1]);
    if i < j - 1 {
      NextStaysUntilDue(states, actions, i, j - 1, id, plan, interval);
      assert !Starts(states[j - 1], actions[j - 1], id);
    }
    if actions[j - 1].Ticked? {
      PlannedAt(states[j - 1], actions[j - 1], states[j], id, plan, interval);
    }
  }

  /** Any two runs of a probe start at least its interval apart, and never closer than ten seconds. */
  lemma {:induction false} RunsAreSpaced(states: seq<State>, actions: seq<Action>, i: nat, j: nat, id: string,
      plan: string, interval: int)
    requires Trace(states, actions) && i < j < |actions| && SamePlan(actions, i, j, id, plan, interval)
    requires Starts(states[i], actions[i], id) && Starts(states[j], actions[j], id)
    ensures actions[j].now - actions[i].now >= Max(10, interval) * SECOND
    decreases j - i
  {
    if k: nat :| i < k < j && Starts(states[k], actions[k], id) {
      RunsAreSpaced(states, actions, i, k, id, plan, interval);
      RunsAreSpaced(states, actions, k, j, id, plan, interval);
    } else {
      NextStaysUntilDue(states, actions, i, j, id, plan, interval);
      assert Step(states[j], actions[j], states[j + 1]);
      PlannedAt(states[j], actions[j], states[j + 1], id, plan, interval);
    }
  }

  // ------------------------------------------------------------------ when a probe starts

  /** The probe is there at every tick from action i to action j, with the same plan. */
  ghost predicate KeepsPlan(actions: seq<Action>, i: nat, j: nat, id: string, plan: string, scheduled: bool)
    requires i <= j < |actions|
  {
    forall k :: i <= k <= j && actions[k].Ticked? ==> IsPlannedBy(Find(actions[k].probes, id), plan, scheduled)
  }

  predicate IsPlannedBy(p: Option<Probe>, plan: string, scheduled: bool) {
    p.Some? && p.value.plan == plan && p.value.scheduled == scheduled
  }

  /** What a start makes the time of the next one: after the interval, or the next fixed hour if there is one. */
  function TimeAfter(p: Probe, now: int): int {
    if !p.scheduled then now + (if p.interval > 10 then p.interval else 10) * SECOND
    else if p.fixed.Some? then p.fixed.value
    else NEVER
  }

  /** The probe has no next run, or one of another plan. */
  predicate IsNew(s: State, id: string, plan: string) {
    id !in s.nextRun || s.nextRun[id].plan != plan
  }

  predicate MayRun(s: State, a: Action, id: string)
    requires a.Ticked?
  {
    Find(a.probes, id).Some? && Find(a.probes, id).value.runnable && id !in s.running
  }

  lemma TickIs(s: State, a: Action, s': State, id: string, plan: string, scheduled: bool)
    requires Step(s, a, s') && a.Ticked? && IsPlannedBy(Find(a.probes, id), plan, scheduled)
    ensures var p := Find(a.probes, id).value;
      && (Starts(s, a, id) <==>
          MayRun(s, a, id) && if IsNew(s, id, plan) then !scheduled else s.nextRun[id].at <= a.now)
      && (Starts(s, a, id) ==> NextOf(s'.nextRun, id) == Some(Next(TimeAfter(p, a.now), plan)))
      && (!Starts(s, a, id) ==>
          NextOf(s'.nextRun, id) ==
            if MayRun(s, a, id) && IsNew(s, id, plan) && p.fixed.Some? then Some(Next(p.fixed.value, plan))
            else NextOf(s.nextRun, id))
  {
    StartedAre(s.nextRun, s.running, a.probes, a.now, id);
  }

  /** Without a start the next run stays where it is. */
  lemma {:induction false} NextStays(states: seq<State>, actions: seq<Action>, i: nat, j: nat, id: string,
      plan: string, scheduled: bool, next: Next)
    requires Trace(states, actions) && i < j < |actions| && KeepsPlan(actions, i, j, id, plan, scheduled)
    requires NextOf(states[i + 1].nextRun, id) == Some(next) && next.plan == plan
    requires forall k :: i < k < j ==> !Starts(states[k], actions[k], id)
    ensures NextOf(states[j].nextRun, id) == Some(next)
    decreases j
  {
    if i < j - 1 {
      NextStays(states, actions, i, j - 1, id, plan, scheduled, next);
      assert !Starts(states[j - 1], actions[j - 1], id);
      assert Step(states[j - 1], actions[j - 1], states[j - 1 + 1]);
      if actions[j - 1].Ticked? {
        TickIs(states[j - 1], actions[j - 1], states[j], id, plan, scheduled);
      }
    }
  }

  /**
   After a start, a probe with an unchanged plan starts again exactly at the first tick at which it may run and the
   time drawn at that start has come: its interval, ten seconds at least, or its next fixed hour.
   */
  lemma StartsExactlyWhenDue(states: seq<State>, actions: seq<Action>, i: nat, j: nat, id: string, plan: string,
      scheduled: bool)
    requires Trace(states, actions) && i < j < |actions| && KeepsPlan(actions, i, j, id, plan, scheduled)
    requires Starts(states[i], actions[i], id) && actions[j].Ticked?
    requires forall k :: i < k < j ==> !Starts(states[k], actions[k], id)
    ensures Starts(states[j], actions[j], id) <==>
      && MayRun(states[j], actions[j], id)
      && TimeAfter(Find(actions[i].probes, id).value, actions[i].now) <= actions[j].now
  {
    assert Step(states[i], actions[i], states[i + 1]) && Step(states[j], actions[j], states[j + 1]);
    TickIs(states[i], actions[i], states[i + 1], id, plan, scheduled);
    NextStays(states, actions, i, j, id, plan, scheduled,
      Next(TimeAfter(Find(actions[i].probes, id).value, actions[i].now), plan));
    TickIs(states[j], actions[j], states[j + 1], id, plan, scheduled);
  }

  /** At a tick that finds it new, a probe with an interval starts if it may run, one with fixed hours does not. */
  lemma NewStartsExactlyWhen(s: State, a: Action, s': State, id: string, plan: string, scheduled: bool)
    requires Step(s, a, s') && a.Ticked? && IsPlannedBy(Find(a.probes, id), plan, scheduled) && IsNew(s, id, plan)
    ensures Starts(s, a, id) <==> MayRun(s, a, id) && !scheduled
  {
    TickIs(s, a, s', id, plan, scheduled);
  }

  /** A new probe with fixed hours starts exactly when it may run and the hour drawn at its first tick has come. */
  lemma FirstHourExactlyWhen(states: seq<State>, actions: seq<Action>, i: nat, j: nat, id: string, plan: string)
    requires Trace(states, actions) && i < j < |actions| && KeepsPlan(actions, i, j, id, plan, true)
    requires actions[i].Ticked? && MayRun(states[i], actions[i], id) && IsNew(states[i], id, plan)
    requires Find(actions[i].probes, id).value.fixed.Some? && actions[j].Ticked?
    requires forall k :: i < k < j ==> !Starts(states[k], actions[k], id)
    ensures Starts(states[j], actions[j], id) <==>
      MayRun(states[j], actions[j], id) && Find(actions[i].probes, id).value.fixed.value <= actions[j].now
  {
    assert Step(states[i], actions[i], states[i + 1]) && Step(states[j], actions[j], states[j + 1]);
    TickIs(states[i], actions[i], states[i + 1], id, plan, true);
    NextStays(states, actions, i, j, id, plan, true, Next(Find(actions[i].probes, id).value.fixed.value, plan));
    TickIs(states[j], actions[j], states[j + 1], id, plan, true);
  }

  // ------------------------------------------------------------------ probes that run no more

  predicate StartsLast(states: seq<State>, actions: seq<Action>, s: State, id: string) {
    && |states| == |actions| + 1 && actions != [] && states[0] == s
    && Starts(states[|actions| - 1], actions[|actions| - 1], id)
  }

  /** Some continuation starts the probe again. */
  ghost predicate CanStart(s: State, id: string) {
    exists states, actions :: Trace(states, actions) && StartsLast(states, actions, s, id)
  }

  /** The tick at which a probe with an interval is due. */
  function DueTick(s: State, p: Probe): Action {
    Ticked([p], if p.id in s.nextRun then s.nextRun[p.id].at else 0, {})
  }

  lemma DueStarts(s: State, p: Probe)
    requires p.runnable && !p.scheduled && p.id !in s.running
    ensures Starts(s, DueTick(s, p), p.id)
  {
    assert p in [p];
  }

  lemma TickGoesOn(s: State, p: Probe) returns (s': State)
    requires p.runnable && !p.scheduled && p.id !in s.running
    ensures Step(s, DueTick(s, p), s')
  {
    var a := DueTick(s, p);
    var next := Plan(p, NextOf(s.nextRun, p.id), false, a.now).0.value;
    var started := StartedBy(s.nextRun, s.running, a.probes, a.now);
    s' := State(map[p.id := next], s.running + started, s.alive + started);
    assert a.probes[..0] == [];
  }

  /** A probe with an interval can start again exactly when no run of it ended before it was registered. */
  lemma CanStartExactlyWhen(s: State, p: Probe)
    requires s.alive <= s.running && p.runnable && !p.scheduled
    ensures CanStart(s, p.id) <==> !IsStuck(s, p.id)
  {
    if IsStuck(s, p.id) {
      forall states, actions | Trace(states, actions) && StartsLast(states, actions, s, p.id) ensures false {
        StuckForGood(states, actions, 0, |actions| - 1, p.id);
      }
    } else {
      var states, actions := [s], [];
      if p.id in s.alive {
        states := states + [s.(running := s.running - {p.id}, alive := s.alive - {p.id})];
        actions := [Finished(p.id)];
      }
      var free := states[|actions|];
      DueStarts(free, p);
      var last := TickGoesOn(free, p);
      states, actions := states + [last], actions + [DueTick(free, p)];
      assert Trace(states, actions) && StartsLast(states, actions, s, p.id);
    }
  }
}
