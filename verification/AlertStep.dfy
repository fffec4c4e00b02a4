/** One pass of the alert engine over one key of one rule, as a function. */
module AlertStep {
  import opened Wrappers

  /** Instants and durations, in ticks. */
  type Time = int

  const MINUTE: Time := 600_000_000
  const HOUR: Time := 60 * MINUTE

  datatype Status = Ok | Pending | Firing

  /** `isEventRule`: new errors and regressions, as opposed to a condition that lasts. */
  datatype Rule = Rule(
    id: string, enabled: bool, forMinutes: int, repeatMinutes: int, windowMinutes: int,
    notifyResolved: bool, isEventRule: bool)

  /** `shown`: the value, message, link and variables of the evaluation. */
  datatype Evaluation = Evaluation(key: string, breach: bool, isEvent: bool, shown: string)

  /** `lasted`: the duration of the alert, known once it is resolved. */
  datatype State = State(
    status: Status, since: Time, shown: string, lasted: Option<Time>,
    lastNotifiedAt: Option<Time>, lastEvaluatedAt: Time)

  datatype Note = Activated | Reminded | Resolved

  datatype Outcome = Outcome(state: Option<State>, note: Option<Note>, changed: bool)

  function Fire(s: State, now: Time): Outcome {
    Outcome(Some(s.(status := Firing, since := now)), Some(Activated), true)
  }

  function Resolve(s: State, now: Time): Outcome {
    match s.status
    case Ok => Outcome(Some(s), None, false)
    case Pending => Outcome(Some(s.(status := Ok, since := now)), None, true)
    case Firing => Outcome(Some(s.(status := Ok, since := now, lasted := Some(now - s.since))), Some(Resolved), true)
  }

  /** The state that receives a result: the one there is, or a new one. */
  function Refreshed(was: Option<State>, e: Evaluation, now: Time): State {
    var s := match was
             case Some(s) => s
             case None => State(Ok, now, "", None, None, now);
    s.(shown := e.shown, lasted := None, lastEvaluatedAt := now)
  }

  function Breached(rule: Rule, s: State, e: Evaluation, now: Time, active: bool): Outcome {
    match s.status
    case Ok =>
      if active && (rule.forMinutes == 0 || e.isEvent) then Fire(s, now)
      else Outcome(Some(s.(status := Pending, since := now)), None, true)
    case Pending =>
      if active && (e.isEvent || now - s.since >= rule.forMinutes * MINUTE) then Fire(s, now)
      else Outcome(Some(s), None, false)
    case Firing =>
      if active && rule.repeatMinutes > 0 && s.lastNotifiedAt.Some?
        && now - s.lastNotifiedAt.value >= rule.repeatMinutes * MINUTE
      then Outcome(Some(s), Some(Reminded), false)
      else Outcome(Some(s), None, false)
  }

  function Seen(rule: Rule, was: Option<State>, e: Evaluation, now: Time, active: bool): Outcome {
    if was.None? && !e.breach then Outcome(None, None, false)
    else
      var s := Refreshed(was, e, now);
      var o := if e.breach then Breached(rule, s, e, now, active)
               else if !e.isEvent then Resolve(s, now)
               else Outcome(Some(s), None, false);
      o.(changed := o.changed || was.None?)
  }

  function Unseen(rule: Rule, s: State, now: Time, active: bool): Outcome {
    if rule.isEventRule && s.status == Pending then
      if active then Fire(s, now) else Outcome(Some(s), None, false)
    else if rule.isEventRule && now - s.lastEvaluatedAt < Max(rule.windowMinutes, 1) * MINUTE then
      Outcome(Some(s), None, false)
    else if rule.isEventRule then Outcome(None, None, true)
    else Resolve(s, now)
  }

  function Judge(rule: Rule, was: Option<State>, e: Option<Evaluation>, now: Time, active: bool): Outcome {
    match e
    case Some(e) => Seen(rule, was, e, now, active)
    case None =>
      match was
      case Some(s) => Unseen(rule, s, now, active)
      case None => Outcome(None, None, false)
  }

  predicate Stale(s: Option<State>, now: Time) {
    s.Some? && s.value.status == Ok && now - s.value.since > HOUR
  }

  function Prune(o: Outcome, now: Time): Outcome {
    if Stale(o.state, now) then o.(state := None, changed := true) else o
  }

  /** A resolution the rule does not announce is recorded all the same, and leaves no trace in the state. */
  function Announce(rule: Rule, o: Outcome, now: Time): Outcome {
    if o.note.None? || (o.note.value == Resolved && !rule.notifyResolved) then o
    else Outcome(if o.state.Some? then Some(o.state.value.(lastNotifiedAt := Some(now))) else None, o.note, true)
  }

  function Step(rule: Rule, was: Option<State>, e: Option<Evaluation>, now: Time, active: bool): Outcome {
    Announce(rule, Prune(Judge(rule, was, e, now, active), now), now)
  }

  /** What is stored across restarts and may not drift from memory. */
  predicate SameStanding(a: Option<State>, b: Option<State>) {
    && a.Some? == b.Some?
    && (a.Some? ==>
          a.value.status == b.value.status && a.value.since == b.value.since
          && a.value.lastNotifiedAt == b.value.lastNotifiedAt)
  }

  /** A pass reports a change exactly when it leaves the standing of the key other than it was. */
  lemma ChangedMeansOtherStanding(rule: Rule, was: Option<State>, e: Option<Evaluation>, now: Time, active: bool)
    ensures Step(rule, was, e, now, active).changed <==> !SameStanding(Step(rule, was, e, now, active).state, was)
  {
  }

  /** For a condition that lasts, a pass depends on the standing of the key alone. */
  lemma StandingDecides(rule: Rule, a: Option<State>, b: Option<State>, e: Option<Evaluation>, now: Time, active: bool)
    requires !rule.isEventRule && SameStanding(a, b)
    ensures SameStanding(Step(rule, a, e, now, active).state, Step(rule, b, e, now, active).state)
    ensures Step(rule, a, e, now, active).note == Step(rule, b, e, now, active).note
  {
  }

  // ------------------------------------------------------------------ a rule about a condition that lasts

  /** One applied evaluation of the rule, seen from one key. */
  datatype Pass = Pass(now: Time, active: bool, result: Option<Evaluation>)

  predicate IsBreach(p: Pass) {
    p.result.Some? && p.result.value.breach
  }

  /** The state of a key after a run of passes that starts without one. */
  function After(rule: Rule, passes: seq<Pass>): Option<State> {
    if passes == [] then None
    else
      var p := passes[|passes| - 1];
      Step(rule, After(rule, passes[..|passes| - 1]), p.result, p.now, p.active).state
  }

  /** What a pass records, if anything. */
  function NoteAt(rule: Rule, passes: seq<Pass>, i: nat): Option<Note>
    requires i < |passes|
  {
    Step(rule, After(rule, passes[..i]), passes[i].result, passes[i].now, passes[i].active).note
  }

  function StatusOf(s: Option<State>): Status {
    if s.Some? then s.value.status else Ok
  }

  ghost predicate Lasting(rule: Rule, passes: seq<Pass>) {
    && !rule.isEventRule && rule.forMinutes >= 0
    && forall i :: 0 <= i < |passes| && passes[i].result.Some? ==> !passes[i].result.value.isEvent
  }

  /** Where the unbroken run of breaches that ends the passes begins. */
  function StreakStart(passes: seq<Pass>): (j: nat)
    ensures j <= |passes|
    ensures forall i :: j <= i < |passes| ==> IsBreach(passes[i])
    ensures j == 0 || !IsBreach(passes[j - 1])
  {
    if passes == [] || !IsBreach(passes[|passes| - 1]) then |passes|
    else StreakStart(passes[..|passes| - 1])
  }

  /** Pass i is inside the activity hours and the condition has held since pass j for the required time. */
  predicate Ripe(rule: Rule, passes: seq<Pass>, j: nat, i: nat)
    requires j <= i < |passes|
  {
    passes[i].active && passes[i].now - passes[j].now >= rule.forMinutes * MINUTE
  }

  /** The status a key should have, told from the passes alone. */
  ghost function Expected(rule: Rule, passes: seq<Pass>): Status {
    var j := StreakStart(passes);
    if j == |passes| then Ok
    else if exists i :: j <= i < |passes| && Ripe(rule, passes, j, i) then Firing
    else Pending
  }

  lemma {:induction false} StreakOfPrefix(passes: seq<Pass>)
    requires passes != [] && IsBreach(passes[|passes| - 1])
    ensures StreakStart(passes) == StreakStart(passes[..|passes| - 1])
  {
  }

  /** One pass of a lasting condition: status, beginning of the wait, and note. */
  lemma LastingStep(rule: Rule, was: Option<State>, p: Pass)
    requires !rule.isEventRule && rule.forMinutes >= 0 && (p.result.Some? ==> !p.result.value.isEvent)
    ensures var o := Step(rule, was, p.result, p.now, p.active);
            var since := if StatusOf(was) == Pending then was.value.since else p.now;
            var ripe := p.active && p.now - since >= rule.forMinutes * MINUTE;
            && StatusOf(o.state)
               == (if !IsBreach(p) then Ok else if ripe || StatusOf(was) == Firing then Firing else Pending)
            && (StatusOf(o.state) == Pending ==> o.state.value.since == since)
            && (o.note == Some(Activated) <==> StatusOf(was) != Firing && StatusOf(o.state) == Firing)
            && (o.note == Some(Resolved) <==> StatusOf(was) == Firing && StatusOf(o.state) != Firing)
            && (o.note == Some(Reminded) ==> StatusOf(was) == Firing && StatusOf(o.state) == Firing)
            && (StatusOf(o.state) == Firing ==>
                  o.state.value.lastNotifiedAt == if o.note.Some? then Some(p.now) else was.value.lastNotifiedAt)
            && (o.note == Some(Reminded) <==>
                  && StatusOf(was) == Firing && IsBreach(p) && p.active && rule.repeatMinutes > 0
                  && was.value.lastNotifiedAt.Some?
                  && p.now - was.value.lastNotifiedAt.value >= rule.repeatMinutes * MINUTE)
  {
  }

  /** What the state of a lasting condition holds after a pass, and when it is forgotten: an hour after it became ok. */
  lemma LastingStateIs(rule: Rule, was: Option<State>, p: Pass)
    requires !rule.isEventRule && (p.result.Some? ==> !p.result.value.isEvent)
    ensures var o := Step(rule, was, p.result, p.now, p.active);
            && (o.state.Some? <==>
                  || StatusOf(o.state) != Ok
                  || (was.Some? && (was.value.status == Ok ==> p.now - was.value.since <= HOUR)))
            && (o.state.Some? ==>
                  && o.state.value.since == (if StatusOf(was) == StatusOf(o.state) then was.value.since else p.now)
                  && (p.result.Some? ==>
                        o.state.value.shown == p.result.value.shown && o.state.value.lastEvaluatedAt == p.now)
                  && (p.result.None? ==>
                        o.state.value.shown == was.value.shown
                        && o.state.value.lastEvaluatedAt == was.value.lastEvaluatedAt))
            && (o.note == Some(Resolved) ==>
                  && o.state.value.lasted == Some(p.now - was.value.since)
                  && o.state.value.lastNotifiedAt
                     == if rule.notifyResolved then Some(p.now) else was.value.lastNotifiedAt)
  {
  }

  lemma ExpectedStep(rule: Rule, passes: seq<Pass>)
    requires passes != [] && rule.forMinutes >= 0
    ensures var n := |passes| - 1;
            var init, p := passes[..n], passes[n];
            var since := if Expected(rule, init) == Pending then init[StreakStart(init)].now else p.now;
            var ripe := p.active && p.now - since >= rule.forMinutes * MINUTE;
            && Expected(rule, passes)
               == (if !IsBreach(p) then Ok else if ripe || Expected(rule, init) == Firing then Firing else Pending)
            && (Expected(rule, passes) == Pending ==> passes[StreakStart(passes)].now == since)
  {
    var n := |passes| - 1;
    var init, p := passes[..n], passes[n];
    if IsBreach(p) {
      StreakOfPrefix(passes);
      var j := StreakStart(passes);
      assert forall i :: j <= i < n ==> (Ripe(rule, passes, j, i) <==> Ripe(rule, init, j, i));
      assert Ripe(rule, passes, j, n) <==> p.active && p.now - passes[j].now >= rule.forMinutes * MINUTE;
    }
  }

  /**
   The engine computes the expected status: a key fires exactly when its present run of breaches has had a pass
   inside the activity hours after the required time, and waits exactly when it has not had one yet.
   */
  lemma {:induction false} StatusIsExpected(rule: Rule, passes: seq<Pass>)
    requires Lasting(rule, passes)
    ensures StatusOf(After(rule, passes)) == Expected(rule, passes)
    ensures Expected(rule, passes) == Pending ==> After(rule, passes).value.since == passes[StreakStart(passes)].now
  {
    if passes != [] {
      var n := |passes| - 1;
      StatusIsExpected(rule, passes[..n]);
      LastingStep(rule, After(rule, passes[..n]), passes[n]);
      ExpectedStep(rule, passes);
    }
  }

  lemma NoteMeans(rule: Rule, passes: seq<Pass>, i: nat)
    requires Lasting(rule, passes) && i < |passes|
    ensures NoteAt(rule, passes, i) == Some(Activated) <==>
              Expected(rule, passes[..i + 1]) == Firing && Expected(rule, passes[..i]) != Firing
    ensures NoteAt(rule, passes, i) == Some(Resolved) <==>
              Expected(rule, passes[..i + 1]) != Firing && Expected(rule, passes[..i]) == Firing
    ensures NoteAt(rule, passes, i) == Some(Reminded) ==>
              Expected(rule, passes[..i + 1]) == Firing && Expected(rule, passes[..i]) == Firing
  {
    StatusIsExpected(rule, passes[..i]);
    StatusIsExpected(rule, passes[..i + 1]);
    AfterStep(rule, passes, i);
    LastingStep(rule, After(rule, passes[..i]), passes[i]);
  }

  lemma AfterStep(rule: Rule, passes: seq<Pass>, i: nat)
    requires i < |passes|
    ensures After(rule, passes[..i + 1])
            == Step(rule, After(rule, passes[..i]), passes[i].result, passes[i].now, passes[i].active).state
  {
    assert passes[..i + 1][..i] == passes[..i];
  }

  /** An activation falls in the activity hours, after the condition held at every pass for the required time. */
  lemma ActivationIsJustified(rule: Rule, passes: seq<Pass>, i: nat)
    requires Lasting(rule, passes) && i < |passes|
    requires NoteAt(rule, passes, i) == Some(Activated)
    ensures var j := StreakStart(passes[..i + 1]);
            && passes[i].active && j <= i
            && passes[i].now - passes[j].now >= rule.forMinutes * MINUTE
            && forall m :: j <= m <= i ==> IsBreach(passes[m])
  {
    NoteMeans(rule, passes, i);
    var until := passes[..i + 1];
    var j := StreakStart(until);
    assert until[..i] == passes[..i];
    StreakOfPrefix(until);
    assert forall m :: j <= m < i ==> (Ripe(rule, until, j, m) <==> Ripe(rule, passes[..i], j, m));
    var m :| j <= m < i + 1 && Ripe(rule, until, j, m);
    assert m == i;
    forall m | j <= m <= i ensures IsBreach(passes[m]) {
      assert until[m] == passes[m];
    }
  }

  /** The activations and resolutions recorded over a run, without the reminders. */
  function Turns(rule: Rule, passes: seq<Pass>): seq<Note> {
    if passes == [] then []
    else
      var n := |passes| - 1;
      var note := NoteAt(rule, passes, n);
      Turns(rule, passes[..n]) + if note.Some? && note.value != Reminded then [note.value] else []
  }

  predicate Alternates(turns: seq<Note>, status: Status) {
    && (forall i :: 0 <= i < |turns| ==> turns[i] == if i % 2 == 0 then Activated else Resolved)
    && (status == Firing <==> |turns| % 2 == 1)
  }

  lemma AlternatesNext(turns: seq<Note>, was: Status, note: Option<Note>, status: Status)
    requires Alternates(turns, was)
    requires note == Some(Activated) <==> was != Firing && status == Firing
    requires note == Some(Resolved) <==> was == Firing && status != Firing
    ensures Alternates(turns + if note.Some? && note.value != Reminded then [note.value] else [], status)
  {
  }

  /** Activations and resolutions strictly alternate, beginning with an activation. */
  lemma {:induction false} TurnsAlternate(rule: Rule, passes: seq<Pass>)
    requires Lasting(rule, passes)
    ensures Alternates(Turns(rule, passes), StatusOf(After(rule, passes)))
  {
    if passes != [] {
      var n := |passes| - 1;
      TurnsAlternate(rule, passes[..n]);
      LastingStep(rule, After(rule, passes[..n]), passes[n]);
      AlternatesNext(Turns(rule, passes[..n]), StatusOf(After(rule, passes[..n])), NoteAt(rule, passes, n),
        StatusOf(After(rule, passes)));
    }
  }

  /** The last pass before `n` that notified the key. */
  ghost predicate LastNotified(rule: Rule, passes: seq<Pass>, n: nat, k: nat)
    requires n <= |passes|
  {
    && k < n
    && NoteAt(rule, passes, k).Some? && NoteAt(rule, passes, k).value != Resolved
    && forall m :: k < m < n ==> NoteAt(rule, passes, m) == None
  }

  /** A pass after which a key fires notifies it, or leaves it firing as it was. */
  lemma FiringAt(rule: Rule, passes: seq<Pass>, n: nat)
    requires Lasting(rule, passes) && n < |passes| && StatusOf(After(rule, passes[..n + 1])) == Firing
    ensures var was, is_, note := After(rule, passes[..n]), After(rule, passes[..n + 1]), NoteAt(rule, passes, n);
            && (note.Some? ==> note.value != Resolved && is_.value.lastNotifiedAt == Some(passes[n].now))
            && (note.None? ==> StatusOf(was) == Firing && is_.value.lastNotifiedAt == was.value.lastNotifiedAt)
  {
    AfterStep(rule, passes, n);
    LastingStep(rule, After(rule, passes[..n]), passes[n]);
  }

  lemma LastNotifiedStays(rule: Rule, passes: seq<Pass>, n: nat, k: nat)
    requires n < |passes| && LastNotified(rule, passes, n, k) && NoteAt(rule, passes, n) == None
    ensures LastNotified(rule, passes, n + 1, k)
  {
  }

  lemma NothingFiresFirst(rule: Rule, passes: seq<Pass>)
    ensures StatusOf(After(rule, passes[..0])) == Ok
  {
    assert passes[..0] == [];
  }

  lemma {:induction false} FiringWasNotified(rule: Rule, passes: seq<Pass>, n: nat) returns (k: nat)
    requires Lasting(rule, passes) && n <= |passes|
    requires StatusOf(After(rule, passes[..n])) == Firing
    ensures LastNotified(rule, passes, n, k)
    ensures After(rule, passes[..n]).value.lastNotifiedAt == Some(passes[k].now)
  {
    NothingFiresFirst(rule, passes);
    assert n > 0;
    FiringAt(rule, passes, n - 1);
    if NoteAt(rule, passes, n - 1).Some? {
      k := n - 1;
    } else {
      k := FiringWasNotified(rule, passes, n - 1);
      LastNotifiedStays(rule, passes, n - 1, k);
    }
  }

  /** A reminder comes at least the repeat interval after the notification before it. */
  lemma RemindersAreSpaced(rule: Rule, passes: seq<Pass>, i: nat) returns (k: nat)
    requires Lasting(rule, passes) && i < |passes|
    requires NoteAt(rule, passes, i) == Some(Reminded)
    ensures LastNotified(rule, passes, i, k)
    ensures rule.repeatMinutes > 0 && passes[i].active
    ensures passes[i].now - passes[k].now >= rule.repeatMinutes * MINUTE
  {
    LastingStep(rule, After(rule, passes[..i]), passes[i]);
    k := FiringWasNotified(rule, passes, i);
  }

  /** The last pass that notified the key is at least the repeat interval ago. */
  ghost predicate RepeatIsDue(rule: Rule, passes: seq<Pass>, i: nat)
    requires i < |passes|
  {
    rule.repeatMinutes > 0 && exists k :: LastNotified(rule, passes, i, k) && IsAgo(rule, passes, k, i)
  }

  predicate IsAgo(rule: Rule, passes: seq<Pass>, k: nat, i: nat)
    requires i < |passes|
  {
    k < i && passes[i].now - passes[k].now >= rule.repeatMinutes * MINUTE
  }

  lemma LastNotifiedIsOne(rule: Rule, passes: seq<Pass>, n: nat, j: nat, k: nat)
    requires n <= |passes| && LastNotified(rule, passes, n, j) && LastNotified(rule, passes, n, k)
    ensures j == k
  {
  }

  /** A pass reminds exactly when the key fired, the condition still holds inside the hours, and a repeat is due. */
  lemma RemindsExactlyWhen(rule: Rule, passes: seq<Pass>, i: nat)
    requires Lasting(rule, passes) && i < |passes|
    ensures NoteAt(rule, passes, i) == Some(Reminded) <==>
              && Expected(rule, passes[..i]) == Firing && IsBreach(passes[i]) && passes[i].active
              && RepeatIsDue(rule, passes, i)
  {
    StatusIsExpected(rule, passes[..i]);
    LastingStep(rule, After(rule, passes[..i]), passes[i]);
    if Expected(rule, passes[..i]) == Firing {
      var k := FiringWasNotified(rule, passes, i);
      if RepeatIsDue(rule, passes, i) {
        var j :| LastNotified(rule, passes, i, j) && IsAgo(rule, passes, j, i);
        LastNotifiedIsOne(rule, passes, i, j, k);
      }
      assert IsAgo(rule, passes, k, i)
             <==> passes[i].now - After(rule, passes[..i]).value.lastNotifiedAt.value >= rule.repeatMinutes * MINUTE;
    }
  }

  /** What a pass must record, told from the passes and the notes before it. */
  ghost function DueNote(rule: Rule, passes: seq<Pass>, i: nat): Option<Note>
    requires i < |passes|
  {
    var was, is_ := Expected(rule, passes[..i]), Expected(rule, passes[..i + 1]);
    if was != Firing && is_ == Firing then Some(Activated)
    else if was == Firing && is_ != Firing then Some(Resolved)
    else if was == Firing && IsBreach(passes[i]) && passes[i].active && RepeatIsDue(rule, passes, i) then Some(Reminded)
    else None
  }

  /** A pass records exactly what it must. */
  lemma NoteIsDue(rule: Rule, passes: seq<Pass>, i: nat)
    requires Lasting(rule, passes) && i < |passes|
    ensures NoteAt(rule, passes, i) == DueNote(rule, passes, i)
  {
    NoteMeans(rule, passes, i);
    RemindsExactlyWhen(rule, passes, i);
  }

  // ------------------------------------------------------------------ a rule about events

  /** A rule about events only ever receives breaches that are events. */
  ghost predicate Eventful(rule: Rule, passes: seq<Pass>) {
    && rule.isEventRule
    && forall i :: 0 <= i < |passes| && passes[i].result.Some? ==>
                     passes[i].result.value.isEvent && passes[i].result.value.breach
  }

  /** The status of an event after a pass: it fires inside the hours, and is forgotten when none came for the window. */
  lemma EventStatusIs(rule: Rule, was: Option<State>, p: Pass)
    requires Eventful(rule, [p])
    ensures var o := Step(rule, was, p.result, p.now, p.active);
            var recent := was.Some? && p.now - was.value.lastEvaluatedAt < Max(rule.windowMinutes, 1) * MINUTE;
            && (StatusOf(was) != Firing && (p.result.Some? || StatusOf(was) == Pending) ==>
                  StatusOf(o.state) == (if p.active then Firing else Pending)
                  && o.note == if p.active then Some(Activated) else None)
            && (StatusOf(was) == Firing ==>
                  && StatusOf(o.state) == (if p.result.Some? || recent then Firing else Ok)
                  && (o.state.None? <==> p.result.None? && !recent))
            && (StatusOf(was) == Ok && p.result.None? ==> StatusOf(o.state) == Ok && o.note == None)
  {
    assert [p][0] == p;
  }

  /** A firing event reminds exactly when it comes again inside the hours and the repeat interval has passed. */
  lemma EventRemindsExactlyWhen(rule: Rule, was: Option<State>, p: Pass)
    requires Eventful(rule, [p])
    ensures Step(rule, was, p.result, p.now, p.active).note == Some(Reminded) <==>
              && StatusOf(was) == Firing && p.result.Some? && p.active && rule.repeatMinutes > 0
              && was.value.lastNotifiedAt.Some?
              && p.now - was.value.lastNotifiedAt.value >= rule.repeatMinutes * MINUTE
  {
    assert [p][0] == p;
  }

  lemma EventStep(rule: Rule, was: Option<State>, p: Pass)
    requires Eventful(rule, [p])
    ensures var o := Step(rule, was, p.result, p.now, p.active);
            && o.note != Some(Resolved)
            && (p.active ==> StatusOf(o.state) != Pending)
            && (StatusOf(was) == Pending ==> o.state.Some? && (o.note == Some(Activated) <==> p.active))
            && (StatusOf(was) == Pending && !p.active ==> o.note == None && StatusOf(o.state) == Pending)
            && (StatusOf(was) == Ok && p.result.Some? && was.None?
               ==> StatusOf(o.state) == (if p.active then Firing else Pending))
            && (o.note == Some(Activated) ==> StatusOf(o.state) == Firing)
            && (was.Some? && StatusOf(was) != Ok ==> o.state.None? || StatusOf(o.state) != Ok)
            && (was.None? ==> o.state.None? || StatusOf(o.state) != Ok)
  {
    assert [p][0] == p;
  }

  /** Events never resolve, and none waits after a pass inside the activity hours. */
  lemma EventsDoNotLinger(rule: Rule, passes: seq<Pass>, i: nat)
    requires Eventful(rule, passes) && i < |passes|
    ensures NoteAt(rule, passes, i) != Some(Resolved)
    ensures passes[i].active ==> StatusOf(After(rule, passes[..i + 1])) != Pending
  {
    AfterStep(rule, passes, i);
    assert Eventful(rule, [passes[i]]);
    EventStep(rule, After(rule, passes[..i]), passes[i]);
  }

  /** A waiting event is noted by the first pass inside the activity hours, and by none before. */
  lemma WaitingAt(rule: Rule, passes: seq<Pass>, m: nat)
    requires Eventful(rule, passes) && m < |passes| && StatusOf(After(rule, passes[..m])) == Pending
    ensures NoteAt(rule, passes, m) == Some(Activated) <==> passes[m].active
    ensures !passes[m].active ==> NoteAt(rule, passes, m) == None && StatusOf(After(rule, passes[..m + 1])) == Pending
  {
    AfterStep(rule, passes, m);
    assert Eventful(rule, [passes[m]]);
    EventStep(rule, After(rule, passes[..m]), passes[m]);
  }

  lemma ArrivesAt(rule: Rule, passes: seq<Pass>, i: nat)
    requires Eventful(rule, passes) && i < |passes| && After(rule, passes[..i]) == None
    requires passes[i].result.Some? && !passes[i].active
    ensures NoteAt(rule, passes, i) == None && StatusOf(After(rule, passes[..i + 1])) == Pending
  {
    AfterStep(rule, passes, i);
    assert Eventful(rule, [passes[i]]);
    EventArrives(rule, passes[i]);
  }

  /** An event that arrives outside the activity hours waits, silently, for the first pass inside them. */
  lemma {:induction false} EventWaitsForHours(rule: Rule, passes: seq<Pass>, i: nat, k: nat)
    requires Eventful(rule, passes) && i < k < |passes|
    requires passes[i].result.Some? && After(rule, passes[..i]) == None
    requires forall m :: i <= m < k ==> !passes[m].active
    ensures StatusOf(After(rule, passes[..k])) == Pending
    ensures forall m :: i <= m < k ==> NoteAt(rule, passes, m) == None
    ensures NoteAt(rule, passes, k) == Some(Activated) <==> passes[k].active
    decreases k
  {
    if k == i + 1 {
      ArrivesAt(rule, passes, i);
    } else {
      EventWaitsForHours(rule, passes, i, k - 1);
      WaitingAt(rule, passes, k - 1);
    }
    WaitingAt(rule, passes, k);
  }

  lemma EventArrives(rule: Rule, p: Pass)
    requires Eventful(rule, [p]) && p.result.Some? && !p.active
    ensures StatusOf(Step(rule, None, p.result, p.now, p.active).state) == Pending
    ensures Step(rule, None, p.result, p.now, p.active).note == None
  {
    assert [p][0] == p;
  }
}
