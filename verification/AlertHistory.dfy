/** The recorded history of alerts over many rounds and process runs. */
module AlertHistory {
  import opened Wrappers
  import opened AlertStep
  import opened AlertEngine

  /** The rule is enabled and has its turn in the round. */
  ghost predicate HasTurn(rule: Rule, r: Round) {
    rule.enabled && IsDistinct(r) && exists t :: t in r.turns && t.rule == rule
  }

  /** The rule is the same in every round. */
  ghost predicate IsKept(rule: Rule, doings: seq<Doing>) {
    forall i :: 0 <= i < |doings| && doings[i].Ran? ==> HasTurn(rule, doings[i].round)
  }

  /** No exception leaves a round, and its states can be stored. */
  predicate AreWhole(doings: seq<Doing>) {
    forall i :: 0 <= i < |doings| && doings[i].Ran? ==> doings[i].done.Whole? && doings[i].round.saved
  }

  /** The turn of the rule in a round. */
  function TurnOf(rule: Rule, turns: seq<Turn>): Option<Turn> {
    if turns == [] then None
    else if turns[|turns| - 1].rule == rule then Some(turns[|turns| - 1])
    else TurnOf(rule, turns[..|turns| - 1])
  }

  function PassOf(t: Turn, now: Time, key: string): Pass
    requires t.results.Some?
  {
    Pass(now, t.active, ResultFor(t.results.value, key))
  }

  /** A round as one key sees it: a pass, unless the rule could not be evaluated. */
  function PassesIn(rule: Rule, r: Round, key: string): seq<Pass> {
    match TurnOf(rule, r.turns)
    case None => []
    case Some(t) => if t.results.None? then [] else [PassOf(t, r.now, key)]
  }

  function PassesOf(rule: Rule, doings: seq<Doing>, key: string): seq<Pass> {
    if doings == [] then []
    else
      var last := doings[|doings| - 1];
      PassesOf(rule, doings[..|doings| - 1], key) + if last.Ran? then PassesIn(rule, last.round, key) else []
  }

  /** The notes of a run of passes, reminders included. */
  function Recorded(rule: Rule, passes: seq<Pass>): seq<Note> {
    if passes == [] then []
    else Recorded(rule, passes[..|passes| - 1]) + Listed(NoteAt(rule, passes, |passes| - 1))
  }

  // ------------------------------------------------------------------ one round

  lemma {:induction false} TurnDecides(rule: Rule, turns: seq<Turn>, states: States, now: Time, key: string)
    requires rule.enabled && DistinctRules(turns) && exists t :: t in turns && t.rule == rule
    ensures var id, t := Id(rule.id, key), TurnOf(rule, turns);
      && t.Some?
      && (t.value.results.None?
         ==> Noted(turns, states, now, id) == None && Rounded(turns, states, now, id) == Lookup(states, id))
      && (t.value.results.Some? ==>
            var o := Stepped(rule, states, t.value.results.value, now, t.value.active, key);
            Noted(turns, states, now, id) == o.note && Rounded(turns, states, now, id) == o.state)
  {
    var init, last := turns[..|turns| - 1], turns[|turns| - 1];
    assert turns == init + [last];
    if last.rule == rule {
      UntouchedSoFar(init, states, now, Id(rule.id, key));
    } else {
      TurnDecides(rule, init, states, now, key);
      var i :| 0 <= i < |init| && init[i].rule == rule;
      assert turns[i].rule.id != last.rule.id;
    }
  }

  lemma PassAfter(rule: Rule, passes: seq<Pass>, p: Pass)
    ensures After(rule, passes + [p]) == Step(rule, After(rule, passes), p.result, p.now, p.active).state
    ensures Recorded(rule, passes + [p]) ==
      Recorded(rule, passes) + Listed(Step(rule, After(rule, passes), p.result, p.now, p.active).note)
  {
    assert (passes + [p])[..|passes|] == passes;
  }

  /** What a whole round does to a key: the pass that it is for the key, if it is one. */
  lemma RoundIsPass(rule: Rule, r: Round, before: Moment, after: Moment, key: string)
    requires HasTurn(rule, r) && HasRounded(r, before, after)
    ensures var id, ps := Id(rule.id, key), PassesIn(rule, r, key);
      && |ps| <= 1
      && (ps == [] ==> Lookup(after.states, id) == Lookup(before.states, id)
                       && About(after.events, id) == About(before.events, id))
      && (ps != [] ==>
            var o := Step(rule, Lookup(before.states, id), ps[0].result, ps[0].now, ps[0].active);
            Lookup(after.states, id) == o.state && About(after.events, id) == About(before.events, id) + Listed(o.note))
  {
    TurnDecides(rule, r.turns, before.states, r.now, key);
    var id := Id(rule.id, key);
    assert About(before.events, id) + [] == About(before.events, id);
  }

  lemma HistoryBefore(rule: Rule, doings: seq<Doing>, log: seq<Moment>)
    requires doings != [] && History(doings, log)
    ensures var n := |doings| - 1;
      && History(doings[..n], log[..n + 1]) && Happened(doings[n], log[n], log[n + 1])
      && (IsKept(rule, doings) ==> IsKept(rule, doings[..n]) && (doings[n].Ran? ==> HasTurn(rule, doings[n].round)))
  {
  }

  lemma PassesAfter(rule: Rule, passes: seq<Pass>, ps: seq<Pass>)
    requires |ps| <= 1
    ensures ps == [] ==> passes + ps == passes
    ensures ps != [] ==>
      var o := Step(rule, After(rule, passes), ps[0].result, ps[0].now, ps[0].active);
      After(rule, passes + ps) == o.state && Recorded(rule, passes + ps) == Recorded(rule, passes) + Listed(o.note)
  {
    if ps != [] {
      assert ps == [ps[0]];
      PassAfter(rule, passes, ps[0]);
    }
  }

  // ------------------------------------------------------------------ any number of whole rounds

  lemma NothingYet(rule: Rule, base: seq<Note>)
    ensures After(rule, []) == None && base + Recorded(rule, []) == base
  {
  }

  lemma RoundGoesOn(rule: Rule, r: Round, before: Moment, after: Moment, key: string, base: seq<Note>,
      passes: seq<Pass>)
    requires HasTurn(rule, r) && HasRounded(r, before, after)
    requires Lookup(before.states, Id(rule.id, key)) == After(rule, passes)
    requires About(before.events, Id(rule.id, key)) == base + Recorded(rule, passes)
    ensures var id, more := Id(rule.id, key), passes + PassesIn(rule, r, key);
      Lookup(after.states, id) == After(rule, more) && About(after.events, id) == base + Recorded(rule, more)
  {
    hide HasRounded, HasTurn, PassesIn, After, Recorded, About;
    RoundIsPass(rule, r, before, after, key);
    PassesAfter(rule, passes, PassesIn(rule, r, key));
  }

  /** In one process run, a key without a state at first: its state and its history are told from the evaluations. */
  lemma {:induction false} HistoryIsRecorded(rule: Rule, doings: seq<Doing>, log: seq<Moment>, key: string)
    requires IsKept(rule, doings) && History(doings, log) && AreWhole(doings) && Restarted !in doings
    requires Id(rule.id, key) !in log[0].states
    ensures var id, n, passes := Id(rule.id, key), |doings|, PassesOf(rule, doings, key);
      && Lookup(log[n].states, id) == After(rule, passes)
      && About(log[n].events, id) == About(log[0].events, id) + Recorded(rule, passes)
  {
    hide After, About, HasTurn, Happened;
    var base, n := About(log[0].events, Id(rule.id, key)), |doings| - 1;
    if doings == [] {
      NothingYet(rule, base);
    } else {
      HistoryBefore(rule, doings, log);
      HistoryIsRecorded(rule, doings[..n], log[..n + 1], key);
      assert doings[n] in doings;
      RoundGoesOn(rule, doings[n].round, log[n], log[n + 1], key, base, PassesOf(rule, doings[..n], key));
    }
  }

  /** Disk and memory agree on what a restart must find again. */
  ghost predicate IsStored(m: Moment) {
    Agree(m.persisted, m.states) && m.filed == m.events
  }

  lemma RoundKeepsStored(r: Round, before: Moment, after: Moment)
    requires HasRounded(r, before, after) && r.saved && IsStored(before)
    ensures IsStored(after)
  {
    if Agree(before.states, after.states) {
      AgreeTransitive(before.persisted, before.states, after.states);
    }
  }

  /**
   Over several process runs, each from what the one before has stored: a key about a condition has the standing that
   its evaluations give it, and its history holds what they note.
   */
  lemma {:induction false} HistorySurvivesRestarts(rule: Rule, doings: seq<Doing>, log: seq<Moment>, key: string)
    requires IsKept(rule, doings) && History(doings, log) && AreWhole(doings) && !rule.isEventRule
    requires IsStored(log[0]) && Id(rule.id, key) !in log[0].states
    ensures var id, n, passes := Id(rule.id, key), |doings|, PassesOf(rule, doings, key);
      && SameStanding(Lookup(log[n].states, id), After(rule, passes))
      && About(log[n].events, id) == About(log[0].events, id) + Recorded(rule, passes)
      && IsStored(log[n])
  {
    hide After, About, HasTurn, Happened, IsStored;
    var base, n := About(log[0].events, Id(rule.id, key)), |doings| - 1;
    if doings == [] {
      NothingYet(rule, base);
    } else {
      HistoryBefore(rule, doings, log);
      HistorySurvivesRestarts(rule, doings[..n], log[..n + 1], key);
      SurvivesOne(rule, doings[n], log[n], log[n + 1], key, base, PassesOf(rule, doings[..n], key));
    }
  }

  /** A round takes a key on as its passes do. */
  lemma SurvivesRound(rule: Rule, r: Round, before: Moment, after: Moment, key: string, base: seq<Note>,
      passes: seq<Pass>)
    requires HasTurn(rule, r) && HasRounded(r, before, after) && !rule.isEventRule
    requires SameStanding(Lookup(before.states, Id(rule.id, key)), After(rule, passes))
    requires About(before.events, Id(rule.id, key)) == base + Recorded(rule, passes)
    ensures var id, more := Id(rule.id, key), passes + PassesIn(rule, r, key);
      && SameStanding(Lookup(after.states, id), After(rule, more))
      && About(after.events, id) == base + Recorded(rule, more)
  {
    hide HasRounded, HasTurn, PassesIn, After, Recorded, About, SameStanding;
    var id, ps := Id(rule.id, key), PassesIn(rule, r, key);
    RoundIsPass(rule, r, before, after, key);
    PassesAfter(rule, passes, ps);
    if ps != [] {
      StandingDecides(rule, Lookup(before.states, id), After(rule, passes), ps[0].result, ps[0].now, ps[0].active);
    }
  }

  /** A restart takes up what is stored. */
  lemma SurvivesRestart(rule: Rule, before: Moment, after: Moment, key: string, passes: seq<Pass>)
    requires Happened(Restarted, before, after) && IsStored(before)
    requires SameStanding(Lookup(before.states, Id(rule.id, key)), After(rule, passes))
    ensures SameStanding(Lookup(after.states, Id(rule.id, key)), After(rule, passes))
    ensures after.events == before.events && IsStored(after)
  {
    var id := Id(rule.id, key);
    assert SameStanding(Lookup(before.persisted, id), Lookup(before.states, id));
  }

  lemma SurvivesOne(rule: Rule, d: Doing, before: Moment, after: Moment, key: string, base: seq<Note>,
      passes: seq<Pass>)
    requires Happened(d, before, after) && !rule.isEventRule && IsStored(before)
    requires d.Ran? ==> HasTurn(rule, d.round) && d.done.Whole? && d.round.saved
    requires SameStanding(Lookup(before.states, Id(rule.id, key)), After(rule, passes))
    requires About(before.events, Id(rule.id, key)) == base + Recorded(rule, passes)
    ensures var id, more := Id(rule.id, key), passes + if d.Ran? then PassesIn(rule, d.round, key) else [];
      && SameStanding(Lookup(after.states, id), After(rule, more))
      && About(after.events, id) == base + Recorded(rule, more) && IsStored(after)
  {
    hide HasRounded, HasTurn, PassesIn, After, Recorded, About, SameStanding, IsStored;
    if d.Ran? {
      SurvivesRound(rule, d.round, before, after, key, base, passes);
      RoundKeepsStored(d.round, before, after);
    } else {
      SurvivesRestart(rule, before, after, key, passes);
      assert passes + [] == passes;
    }
  }

  function WithoutReminders(notes: seq<Note>): seq<Note> {
    if notes == [] then []
    else
      var last := notes[|notes| - 1];
      WithoutReminders(notes[..|notes| - 1]) + if last == Reminded then [] else [last]
  }

  lemma {:induction false} TurnsAreRecorded(rule: Rule, passes: seq<Pass>)
    ensures WithoutReminders(Recorded(rule, passes)) == Turns(rule, passes)
  {
    if passes != [] {
      var n := |passes| - 1;
      TurnsAreRecorded(rule, passes[..n]);
      var note := NoteAt(rule, passes, n);
      if note.Some? {
        assert Recorded(rule, passes)[..|Recorded(rule, passes[..n])|] == Recorded(rule, passes[..n]);
      } else {
        assert Recorded(rule, passes) == Recorded(rule, passes[..n]);
      }
    }
  }

  /** What is recorded was noted by one of the passes. */
  lemma {:induction false} RecordedWasNoted(rule: Rule, passes: seq<Pass>, e: nat) returns (m: nat)
    requires e < |Recorded(rule, passes)|
    ensures m < |passes| && NoteAt(rule, passes, m) == Some(Recorded(rule, passes)[e])
  {
    var n := |passes| - 1;
    if e < |Recorded(rule, passes[..n])| {
      m := RecordedWasNoted(rule, passes[..n], e);
      assert passes[..n][..m] == passes[..m];
    } else {
      m := n;
    }
  }

  /** Why pass m may note what it notes about a condition that lasts. */
  ghost predicate IsJustified(rule: Rule, passes: seq<Pass>, m: nat)
    requires m < |passes|
  {
    match NoteAt(rule, passes, m)
    case None => false
    case Some(Activated) => HasHeld(rule, passes, StreakStart(passes[..m + 1]), m)
    case Some(Resolved) => !IsBreach(passes[m])
    case Some(Reminded) => exists k :: IsDue(rule, passes, k, m)
  }

  /** Inside the activity hours, the condition was breached at every pass since j, for the required time. */
  ghost predicate HasHeld(rule: Rule, passes: seq<Pass>, j: nat, m: nat)
    requires m < |passes|
  {
    && j <= m && passes[m].active && passes[m].now - passes[j].now >= rule.forMinutes * MINUTE
    && forall i :: j <= i <= m ==> IsBreach(passes[i])
  }

  /** Inside the activity hours, the last notification was at pass k, at least the repeat interval ago. */
  ghost predicate IsDue(rule: Rule, passes: seq<Pass>, k: nat, m: nat)
    requires m < |passes|
  {
    && LastNotified(rule, passes, m, k) && rule.repeatMinutes > 0
    && passes[m].active && passes[m].now - passes[k].now >= rule.repeatMinutes * MINUTE
  }

  lemma NotesAreJustified(rule: Rule, passes: seq<Pass>, m: nat)
    requires Lasting(rule, passes) && m < |passes| && NoteAt(rule, passes, m).Some?
    ensures IsJustified(rule, passes, m)
  {
    match NoteAt(rule, passes, m).value
    case Activated => ActivationIsJustified(rule, passes, m);
    case Resolved => LastingStep(rule, After(rule, passes[..m]), passes[m]);
    case Reminded =>
      var k := RemindersAreSpaced(rule, passes, m);
      assert IsDue(rule, passes, k, m);
  }

  /** The rule is about a condition that lasts: no result of it is an event. */
  ghost predicate IsAboutCondition(rule: Rule, doings: seq<Doing>) {
    !rule.isEventRule && rule.forMinutes >= 0 && AreOf(rule, doings, false)
  }

  /** The result of an event, or of a condition. */
  predicate IsSort(e: Evaluation, event: bool) {
    if event then e.isEvent && e.breach else !e.isEvent
  }

  /** Every result of the rule is of this sort. */
  ghost predicate AreOf(rule: Rule, doings: seq<Doing>, event: bool) {
    forall i, t :: 0 <= i < |doings| && doings[i].Ran? && t in doings[i].round.turns && t.rule == rule ==>
                     IsOf(t, event)
  }

  ghost predicate IsOf(t: Turn, event: bool) {
    t.results.Some? ==> forall e :: e in t.results.value ==> IsSort(e, event)
  }

  lemma {:induction false} TurnIsOne(rule: Rule, turns: seq<Turn>)
    ensures TurnOf(rule, turns).Some? ==> TurnOf(rule, turns).value in turns && TurnOf(rule, turns).value.rule == rule
  {
    if turns != [] {
      TurnIsOne(rule, turns[..|turns| - 1]);
    }
  }

  lemma {:induction false} PassesAreOf(rule: Rule, doings: seq<Doing>, key: string, event: bool)
    requires AreOf(rule, doings, event)
    ensures forall p :: p in PassesOf(rule, doings, key) && p.result.Some? ==> IsSort(p.result.value, event)
  {
    if doings != [] {
      var init, d := doings[..|doings| - 1], doings[|doings| - 1];
      PassesAreOf(rule, init, key, event);
      if d.Ran? {
        TurnIsOne(rule, d.round.turns);
        var t := TurnOf(rule, d.round.turns);
        if t.Some? && t.value.results.Some? {
          assert IsOf(t.value, event);
          ResultForIsIn(t.value.results.value, key);
        }
      }
    }
  }

  /** One of the passes notes this, and has reason to. */
  ghost predicate IsSupported(rule: Rule, passes: seq<Pass>, note: Note) {
    exists m :: 0 <= m < |passes| && NoteAt(rule, passes, m) == Some(note) && IsJustified(rule, passes, m)
  }

  lemma RecordedIsSupported(rule: Rule, passes: seq<Pass>, e: nat)
    requires Lasting(rule, passes) && e < |Recorded(rule, passes)|
    ensures IsSupported(rule, passes, Recorded(rule, passes)[e])
  {
    var m := RecordedWasNoted(rule, passes, e);
    NotesAreJustified(rule, passes, m);
  }

  /** What the history gained about the key of a rule since the first moment of the log. */
  function Gained(rule: Rule, log: seq<Moment>, key: string): seq<Note>
    requires log != []
  {
    var before, after := About(log[0].events, Id(rule.id, key)), About(log[|log| - 1].events, Id(rule.id, key));
    if |before| <= |after| then after[|before|..] else []
  }

  lemma GainedIs(rule: Rule, log: seq<Moment>, key: string, notes: seq<Note>)
    requires log != []
    requires About(log[|log| - 1].events, Id(rule.id, key)) == About(log[0].events, Id(rule.id, key)) + notes
    ensures Gained(rule, log, key) == notes
  {
  }

  /**
   Over any number of rounds that no exception leaves, in any number of process runs, what is recorded about the key of
   a condition is alternately an activation and a resolution, an activation first, with reminders in between; each of
   them is justified by the evaluations.
   */
  lemma RecordedHistoryIsSound(rule: Rule, doings: seq<Doing>, log: seq<Moment>, key: string)
    requires IsKept(rule, doings) && IsAboutCondition(rule, doings) && AreWhole(doings)
    requires History(doings, log) && IsStored(log[0]) && Id(rule.id, key) !in log[0].states
    ensures Alternates(WithoutReminders(Gained(rule, log, key)),
                       StatusOf(Lookup(log[|doings|].states, Id(rule.id, key))))
    ensures forall e :: 0 <= e < |Gained(rule, log, key)| ==>
                          IsSupported(rule, PassesOf(rule, doings, key), Gained(rule, log, key)[e])
  {
    hide After, Recorded, Turns, Alternates, WithoutReminders, IsSupported, Happened, IsKept, AreWhole, About;
    var passes, gained := PassesOf(rule, doings, key), Gained(rule, log, key);
    HistorySurvivesRestarts(rule, doings, log, key);
    GainedIs(rule, log, key, Recorded(rule, passes));
    PassesAreOf(rule, doings, key, false);
    TurnsAreRecorded(rule, passes);
    TurnsAlternate(rule, passes);
    forall e | 0 <= e < |gained| ensures IsSupported(rule, passes, gained[e]) {
      RecordedIsSupported(rule, passes, e);
    }
  }

  /** The notes due over a run of passes, in order. */
  ghost function Dues(rule: Rule, passes: seq<Pass>): seq<Note> {
    if passes == [] then []
    else Dues(rule, passes[..|passes| - 1]) + Listed(DueNote(rule, passes, |passes| - 1))
  }

  lemma {:induction false} RecordedAreDues(rule: Rule, passes: seq<Pass>)
    requires Lasting(rule, passes)
    ensures Recorded(rule, passes) == Dues(rule, passes)
  {
    if passes != [] {
      RecordedAreDues(rule, passes[..|passes| - 1]);
      NoteIsDue(rule, passes, |passes| - 1);
    }
  }

  /** Over the same rounds, the history gains exactly the notes that were due, reminders included, in order. */
  lemma RecordedHistoryIsExact(rule: Rule, doings: seq<Doing>, log: seq<Moment>, key: string)
    requires IsKept(rule, doings) && IsAboutCondition(rule, doings) && AreWhole(doings)
    requires History(doings, log) && IsStored(log[0]) && Id(rule.id, key) !in log[0].states
    ensures Gained(rule, log, key) == Dues(rule, PassesOf(rule, doings, key))
  {
    hide After, Recorded, Dues, Happened, IsKept, AreWhole, About;
    HistorySurvivesRestarts(rule, doings, log, key);
    GainedIs(rule, log, key, Recorded(rule, PassesOf(rule, doings, key)));
    PassesAreOf(rule, doings, key, false);
    RecordedAreDues(rule, PassesOf(rule, doings, key));
  }

  // ------------------------------------------------------------------ rounds that stop: what is stored

  function StateAfter(r: Round, done: Done, states: States, id: Id): Option<State> {
    if done.Whole? then Rounded(r.turns, states, r.now, id) else StoppedState(r, done, states, id)
  }

  /** The round changes what a restart must find again, and does not get to store it. */
  ghost predicate LosesChange(d: Doing, states: States) {
    && d.Ran? && (d.done.Stopped? || !d.round.saved)
    && exists id :: !SameStanding(Lookup(states, id), StateAfter(d.round, d.done, states, id))
  }

  lemma StoredAfter(d: Doing, before: Moment, after: Moment)
    requires Happened(d, before, after) && Agree(before.persisted, before.states)
    ensures Agree(after.persisted, after.states) <==> !LosesChange(d, before.states)
  {
    if d.Ran? && (d.done.Stopped? || !d.round.saved) {
      DisagreeMeans(before.states, after.states, d);
      if Agree(before.states, after.states) {
        AgreeTransitive(before.persisted, before.states, after.states);
      } else if Agree(before.persisted, after.states) {
        AgreeSymmetric(before.persisted, before.states);
        AgreeTransitive(before.states, before.persisted, after.states);
      }
    } else if d.Ran? && Agree(before.states, after.states) {
      AgreeTransitive(before.persisted, before.states, after.states);
    }
  }

  lemma DisagreeMeans(before: States, after: States, d: Doing)
    requires d.Ran? && forall id :: Lookup(after, id) == StateAfter(d.round, d.done, before, id)
    ensures !Agree(before, after)
       <==> exists id :: !SameStanding(Lookup(before, id), StateAfter(d.round, d.done, before, id))
  {
    if !Agree(before, after) {
      var id :| !SameStanding(Lookup(before, id), Lookup(after, id));
      assert !SameStanding(Lookup(before, id), StateAfter(d.round, d.done, before, id));
    }
  }

  ghost predicate AlwaysAgree(log: seq<Moment>) {
    forall i :: 0 <= i < |log| ==> Agree(log[i].persisted, log[i].states)
  }

  /** The stored copy agrees with memory at every moment exactly when no round changes something without storing it. */
  lemma {:induction false} StoredAgreesExactlyWhen(doings: seq<Doing>, log: seq<Moment>)
    requires History(doings, log) && Agree(log[0].persisted, log[0].states)
    ensures AlwaysAgree(log) <==> forall i :: 0 <= i < |doings| ==> !LosesChange(doings[i], log[i].states)
  {
    if doings != [] {
      var n := |doings| - 1;
      assert History(doings[..n], log[..n + 1]) && Happened(doings[n], log[n], log[n + 1]);
      StoredAgreesExactlyWhen(doings[..n], log[..n + 1]);
      assert AlwaysAgree(log) <==> AlwaysAgree(log[..n + 1]) && Agree(log[n + 1].persisted, log[n + 1].states);
      if AlwaysAgree(log[..n + 1]) {
        assert log[..n + 1][n] == log[n];
        StoredAfter(doings[n], log[n], log[n + 1]);
      }
    }
  }

  // ------------------------------------------------------------------ rounds that stop: what is recorded

  predicate IsTurn(note: Option<Note>) {
    note.Some? && note.value != Reminded
  }

  /** The round stops before it records the activation or the resolution of the key. */
  predicate LosesTurn(d: Doing, states: States, id: Id) {
    && d.Ran? && IsCut(d.round, d.done, id) && id.key !in d.done.recorded
    && var t := d.round.turns[d.done.turn];
    IsTurn(Stepped(t.rule, states, t.results.value, d.round.now, t.active, id.key).note)
  }

  /** The history tells the status: its turns alternate, the last one an activation exactly when the key fires. */
  predicate Tells(m: Moment, id: Id) {
    Alternates(WithoutReminders(About(m.events, id)), StatusOf(Lookup(m.states, id)))
  }

  /** Other turns than those of the rule have other identifiers. */
  lemma OneTurn(rule: Rule, r: Round, i: nat)
    requires HasTurn(rule, r) && i < |r.turns|
    ensures r.turns[i].rule.id == rule.id ==> r.turns[i].rule == rule
  {
    var t :| t in r.turns && t.rule == rule;
    var j :| 0 <= j < |r.turns| && r.turns[j] == t;
  }

  /** The pass that a round is for a key, whole or not: none when the rule is not evaluated, or after the stop. */
  lemma RoundAt(rule: Rule, d: Doing, before: Moment, after: Moment, key: string) returns (t: Option<Turn>)
    requires d.Ran? && HasTurn(rule, d.round) && Happened(d, before, after)
    ensures t.Some? ==> t.value in d.round.turns && t.value.rule == rule && t.value.results.Some?
    ensures t.None? ==>
      var id := Id(rule.id, key);
      && Lookup(after.states, id) == Lookup(before.states, id) && About(after.events, id) == About(before.events, id)
      && !LosesTurn(d, before.states, id)
    ensures t.Some? ==>
      var id, p := Id(rule.id, key), PassOf(t.value, d.round.now, key);
      var o := Step(rule, Lookup(before.states, id), p.result, p.now, p.active);
      && StatusOf(Lookup(after.states, id)) == StatusOf(o.state)
      && (LosesTurn(d, before.states, id) ==> IsTurn(o.note) && About(after.events, id) == About(before.events, id))
      && (!LosesTurn(d, before.states, id) ==>
            || About(after.events, id) == About(before.events, id) + Listed(o.note)
            || (About(after.events, id) == About(before.events, id) && !IsTurn(o.note)))
  {
    var r, id := d.round, Id(rule.id, key);
    assert About(before.events, id) + [] == About(before.events, id);
    if d.done.Whole? {
      RoundIsPass(rule, r, before, after, key);
      TurnDecides(rule, r.turns, before.states, r.now, key);
      TurnIsOne(rule, r.turns);
      t := TurnOf(rule, r.turns);
      if t.value.results.None? { t := None; }
    } else if IsCut(r, d.done, id) {
      OneTurn(rule, r, d.done.turn);
      t := Some(r.turns[d.done.turn]);
    } else {
      t := TurnBefore(rule, r, d.done.turn, before.states, key);
    }
  }

  /** What the turns before a stop make of a key. */
  lemma TurnBefore(rule: Rule, r: Round, n: nat, states: States, key: string) returns (t: Option<Turn>)
    requires HasTurn(rule, r) && n <= |r.turns|
    ensures t.Some? ==> t.value in r.turns && t.value.rule == rule && t.value.results.Some?
    ensures var id, turns := Id(rule.id, key), r.turns[..n];
      && (t.None? ==>
            HalfRounded(turns, states, r.now, id) == Lookup(states, id) && Noted(turns, states, r.now, id) == None)
      && (t.Some? ==>
            var o := Stepped(rule, states, t.value.results.value, r.now, t.value.active, key);
            HalfRounded(turns, states, r.now, id) == o.state && Noted(turns, states, r.now, id) == o.note)
  {
    var turns, id := r.turns[..n], Id(rule.id, key);
    if exists t :: t in turns && t.rule == rule {
      TurnDecides(rule, turns, states, r.now, key);
      RoundedAt(turns, states, r.now, id);
      TurnIsOne(rule, turns);
      t := TurnOf(rule, turns);
      if t.value.results.None? { t := None; }
    } else {
      forall t | t in turns ensures t.rule.id != id.rule {
        var i: nat :| i < n && r.turns[i] == t;
        OneTurn(rule, r, i);
      }
      UntouchedSoFar(turns, states, r.now, id);
      t := None;
    }
  }

  lemma WithoutRemindersNext(notes: seq<Note>, note: Option<Note>)
    ensures WithoutReminders(notes + Listed(note))
         == WithoutReminders(notes) + if IsTurn(note) then [note.value] else []
  {
    if note.Some? {
      assert (notes + [note.value])[..|notes|] == notes;
    } else {
      assert notes + [] == notes;
    }
  }

  /** One round: the history goes on telling the status exactly when the round does not lose the turn of the key. */
  lemma TellsNext(rule: Rule, d: Doing, before: Moment, after: Moment, key: string)
    requires d.Ran? && HasTurn(rule, d.round) && IsAboutCondition(rule, [d]) && Happened(d, before, after)
    requires Tells(before, Id(rule.id, key))
    ensures Tells(after, Id(rule.id, key)) <==> !LosesTurn(d, before.states, Id(rule.id, key))
  {
    var id := Id(rule.id, key);
    var t := RoundAt(rule, d, before, after, key);
    if t.Some? {
      assert [d][0] == d && IsOf(t.value, false);
      ResultForIsIn(t.value.results.value, key);
      var p, was := PassOf(t.value, d.round.now, key), Lookup(before.states, id);
      var o := Step(rule, was, p.result, p.now, p.active);
      LastingStep(rule, was, p);
      AlternatesNext(WithoutReminders(About(before.events, id)), StatusOf(was), o.note, StatusOf(o.state));
      WithoutRemindersNext(About(before.events, id), o.note);
    }
  }

  ghost predicate AlwaysTells(log: seq<Moment>, id: Id) {
    forall i :: 0 <= i < |log| ==> Tells(log[i], id)
  }

  ghost predicate NoTurnIsLost(doings: seq<Doing>, log: seq<Moment>, id: Id)
    requires |log| == |doings| + 1
  {
    forall i :: 0 <= i < |doings| ==> !LosesTurn(doings[i], log[i].states, id)
  }

  lemma AlwaysNext(doings: seq<Doing>, log: seq<Moment>, id: Id)
    requires doings != [] && |log| == |doings| + 1
    ensures var n := |doings| - 1;
      && (AlwaysTells(log, id) <==> AlwaysTells(log[..n + 1], id) && Tells(log[n + 1], id))
      && (AlwaysTells(log, id) ==> Tells(log[n], id)) && (AlwaysTells(log[..n + 1], id) ==> Tells(log[n], id))
      && (NoTurnIsLost(doings, log, id)
          <==> NoTurnIsLost(doings[..n], log[..n + 1], id) && !LosesTurn(doings[n], log[n].states, id))
  {
    hide Tells, LosesTurn;
    var n := |doings| - 1;
    assert log[..n + 1][n] == log[n];
  }

  /**
   In one process run: the history tells the status of a key at every moment exactly when no round stops before it
   records an activation or a resolution of the key.
   */
  lemma {:induction false} HistoryTellsStatusExactlyWhen(rule: Rule, doings: seq<Doing>, log: seq<Moment>, key: string)
    requires IsKept(rule, doings) && IsAboutCondition(rule, doings) && History(doings, log) && Restarted !in doings
    requires Tells(log[0], Id(rule.id, key))
    ensures AlwaysTells(log, Id(rule.id, key)) <==> NoTurnIsLost(doings, log, Id(rule.id, key))
  {
    var id, n := Id(rule.id, key), |doings| - 1;
    if doings != [] {
      hide AlwaysTells, NoTurnIsLost, Tells, LosesTurn, HasTurn, Happened;
      HistoryBefore(rule, doings, log);
      AlwaysNext(doings, log, id);
      HistoryTellsStatusExactlyWhen(rule, doings[..n], log[..n + 1], key);
      if AlwaysTells(log[..n + 1], id) {
        assert doings[n] in doings;
        assert IsAboutCondition(rule, [doings[n]]);
        TellsNext(rule, doings[n], log[n], log[n + 1], key);
      }
    }
  }

  lemma OneBreach(rule: Rule, e: Evaluation, now: Time, x: Id)
    requires !rule.isEventRule && rule.forMinutes == 0 && e == Evaluation("", true, false, "")
    ensures Cut(rule, map[], [e], now, true, x.key, {}).state
            == if x.key == "" then Some(State(Firing, now, "", None, None, now)) else None
  {
    assert [e][..0] == [];
    assert ResultFor([e], x.key) == if x.key == "" then Some(e) else None;
  }

  /** Sending the first notification fails: the key fires, and neither the history nor the disk holds it. */
  lemma ActivationIsLost(rule: Rule, now: Time) returns (doings: seq<Doing>, log: seq<Moment>)
    requires rule.enabled && !rule.isEventRule && rule.forMinutes == 0
    ensures IsKept(rule, doings) && History(doings, log) && log[0] == Moment(map[], map[], [], [])
    ensures var id, m := Id(rule.id, ""), log[|doings|];
      && StatusOf(Lookup(m.states, id)) == Firing && m.states[id].lastNotifiedAt == None
      && !Tells(m, id) && !Agree(m.persisted, m.states)
  {
    var id, e := Id(rule.id, ""), Evaluation("", true, false, "");
    var t := Turn(rule, Some([e]), true);
    var r := Round([t], now, Some(AtNote(0, NoteStop(0, Sending))), true);
    var done := Stopped(0, true, {}, {}, true);
    var firing := State(Firing, now, "", None, None, now);
    var before, after := Moment(map[], map[], [], []), Moment(map[id := firing], map[], [], []);
    forall x: Id
      ensures Lookup(after.states, x) == StoppedState(r, done, before.states, x)
      ensures About(after.events, x) == About(before.events, x) + Listed(StoppedNote(r, done, before.states, x))
    {
      OneBreach(rule, e, now, x);
      assert r.turns[..0] == [];
    }
    doings, log := [Ran(r, done)], [before, after];
    assert t in r.turns;
    assert !SameStanding(Lookup(after.persisted, id), Lookup(after.states, id));
  }

  lemma UnnotifiedStep(rule: Rule, was: Option<State>, p: Pass)
    requires Lasting(rule, [p]) && IsBreach(p) && StatusOf(was) == Firing && was.value.lastNotifiedAt == None
    ensures var o := Step(rule, was, p.result, p.now, p.active);
      o.note == None && StatusOf(o.state) == Firing && o.state.value.lastNotifiedAt == None
  {
    assert [p][0] == p;
    LastingStep(rule, was, p);
  }

  function NoteFrom(rule: Rule, was: Option<State>, passes: seq<Pass>, i: nat): Option<Note>
    requires i < |passes|
  {
    Step(rule, AfterFrom(rule, was, passes[..i]), passes[i].result, passes[i].now, passes[i].active).note
  }

  /** A key that fires without a notification time gets neither one nor a reminder while the condition lasts. */
  lemma {:induction false} UnnotifiedStaysSilent(rule: Rule, was: Option<State>, passes: seq<Pass>)
    requires Lasting(rule, passes) && StatusOf(was) == Firing && was.value.lastNotifiedAt == None
    requires forall i :: 0 <= i < |passes| ==> IsBreach(passes[i])
    ensures var s := AfterFrom(rule, was, passes); StatusOf(s) == Firing && s.value.lastNotifiedAt == None
    ensures forall i :: 0 <= i < |passes| ==> NoteFrom(rule, was, passes, i) == None
  {
    if passes != [] {
      hide Step;
      var n := |passes| - 1;
      UnnotifiedStaysSilent(rule, was, passes[..n]);
      UnnotifiedStep(rule, AfterFrom(rule, was, passes[..n]), passes[n]);
      forall i | 0 <= i < n ensures NoteFrom(rule, was, passes, i) == None {
        assert passes[..n][..i] == passes[..i];
        assert NoteFrom(rule, was, passes[..n], i) == None;
      }
    }
  }

  function AfterFrom(rule: Rule, was: Option<State>, passes: seq<Pass>): Option<State> {
    if passes == [] then was
    else
      var p := passes[|passes| - 1];
      Step(rule, AfterFrom(rule, was, passes[..|passes| - 1]), p.result, p.now, p.active).state
  }

  // ------------------------------------------------------------------ rules about events

  ghost predicate IsAboutEvents(rule: Rule, doings: seq<Doing>) {
    rule.isEventRule && AreOf(rule, doings, true)
  }

  predicate NothingResolved(m: Moment, id: Id) {
    Resolved !in About(m.events, id) && Resolved !in About(m.filed, id)
  }

  lemma PrefixResolvesNothing(a: seq<Event>, b: seq<Event>, id: Id)
    requires a <= b && Resolved !in About(b, id)
    ensures Resolved !in About(a, id)
  {
    assert b == a + b[|a|..];
    AboutMore(a, b[|a|..], id);
  }

  lemma NothingResolvedNext(rule: Rule, d: Doing, before: Moment, after: Moment, key: string)
    requires Happened(d, before, after) && NothingResolved(before, Id(rule.id, key))
    requires d.Ran? ==> HasTurn(rule, d.round) && IsAboutEvents(rule, [d])
    ensures NothingResolved(after, Id(rule.id, key))
  {
    var id := Id(rule.id, key);
    if d.Ran? {
      var t := RoundAt(rule, d, before, after, key);
      if t.Some? {
        EventAt(rule, d, t.value, Lookup(before.states, id), key);
      }
      PrefixResolvesNothing(after.events, after.events, id);
      if after.events != [] {
        PrefixResolvesNothing(after.events[..|after.events| - 1], after.events, id);
      }
    }
  }

  lemma EventAt(rule: Rule, d: Doing, t: Turn, was: Option<State>, key: string)
    requires d.Ran? && t in d.round.turns && t.rule == rule && t.results.Some? && IsAboutEvents(rule, [d])
    ensures var p := PassOf(t, d.round.now, key);
      var o := Step(rule, was, p.result, p.now, p.active);
      o.note != Some(Resolved) && (p.active ==> StatusOf(o.state) != Pending)
  {
    assert [d][0] == d && IsOf(t, true);
    ResultForIsIn(t.results.value, key);
    EventStep(rule, was, PassOf(t, d.round.now, key));
  }

  /** Whatever stops and restarts in between, no resolution of an event is ever recorded. */
  lemma {:induction false} EventsAreNotResolved(rule: Rule, doings: seq<Doing>, log: seq<Moment>, key: string)
    requires IsKept(rule, doings) && IsAboutEvents(rule, doings) && History(doings, log)
    requires NothingResolved(log[0], Id(rule.id, key))
    ensures NothingResolved(log[|doings|], Id(rule.id, key))
  {
    if doings != [] {
      var n := |doings| - 1;
      HistoryBefore(rule, doings, log);
      EventsAreNotResolved(rule, doings[..n], log[..n + 1], key);
      NothingResolvedNext(rule, doings[n], log[n], log[n + 1], key);
    }
  }

  /** No event waits after a round that evaluates its rule inside the activity hours. */
  lemma NoEventWaits(rule: Rule, r: Round, before: Moment, after: Moment, key: string)
    requires HasTurn(rule, r) && IsAboutEvents(rule, [Ran(r, Whole)]) && HasRounded(r, before, after)
    requires forall p :: p in PassesIn(rule, r, key) ==> p.active
    requires PassesIn(rule, r, key) != []
    ensures StatusOf(Lookup(after.states, Id(rule.id, key))) != Pending
  {
    RoundIsPass(rule, r, before, after, key);
    TurnIsOne(rule, r.turns);
    var t := TurnOf(rule, r.turns).value;
    assert PassOf(t, r.now, key) in PassesIn(rule, r, key);
    EventAt(rule, Ran(r, Whole), t, Lookup(before.states, Id(rule.id, key)), key);
  }
}
