/**
 The alert engine: one pass over a rule, one round over all rules, and rounds that an exception leaves before they are
 over. The loops work on the states in place; what they do to each key is a function of its old state and its result.
 */
module AlertEngine {
  import opened Wrappers
  import opened AlertStep

  /** The identifier of a state: rule and key. The two are joined by a '|', which rule identifiers do not hold. */
  datatype Id = Id(rule: string, key: string)

  type States = map<Id, State>

  datatype Event = Event(rule: string, key: string, note: Note)

  function Lookup(states: States, id: Id): Option<State> {
    if id in states then Some(states[id]) else None
  }

  function Put(states: States, id: Id, s: Option<State>): States {
    match s
    case Some(s) => states[id := s]
    case None => states - {id}
  }

  ghost predicate Distinct(results: seq<Evaluation>) {
    forall i, j :: 0 <= i < j < |results| ==> results[i].key != results[j].key
  }

  function ResultFor(results: seq<Evaluation>, key: string): Option<Evaluation> {
    if results == [] then None
    else if results[|results| - 1].key == key then Some(results[|results| - 1])
    else ResultFor(results[..|results| - 1], key)
  }

  /** The notes of one key, in order. */
  function NotesOf(notes: seq<(string, Note)>, key: string): seq<Note> {
    if notes == [] then []
    else NotesOf(notes[..|notes| - 1], key) + if notes[|notes| - 1].0 == key then [notes[|notes| - 1].1] else []
  }

  function Listed(note: Option<Note>): seq<Note> {
    match note
    case Some(n) => [n]
    case None => []
  }

  function EventsOf(rule: string, notes: seq<(string, Note)>): seq<Event> {
    if notes == [] then []
    else EventsOf(rule, notes[..|notes| - 1]) + [Event(rule, notes[|notes| - 1].0, notes[|notes| - 1].1)]
  }

  /** What the history holds about one key of one rule, in order. */
  function About(events: seq<Event>, id: Id): seq<Note> {
    if events == [] then []
    else
      var last := events[|events| - 1];
      About(events[..|events| - 1], id) + if last.rule == id.rule && last.key == id.key then [last.note] else []
  }

  lemma {:induction false} AboutMore(a: seq<Event>, b: seq<Event>, id: Id)
    ensures About(a + b, id) == About(a, id) + About(b, id)
  {
    if b == [] {
      assert a + b == a;
    } else {
      AboutMore(a, b[..|b| - 1], id);
      assert (a + b)[..|a + b| - 1] == a + b[..|b| - 1];
    }
  }

  lemma {:induction false} AboutNotes(rule: string, notes: seq<(string, Note)>, id: Id)
    ensures About(EventsOf(rule, notes), id) == if id.rule == rule then NotesOf(notes, id.key) else []
  {
    if notes != [] {
      var init, last := notes[..|notes| - 1], notes[|notes| - 1];
      AboutNotes(rule, init, id);
      assert EventsOf(rule, notes)[..|EventsOf(rule, init)|] == EventsOf(rule, init);
    }
  }

  /** Memory and disk agree on what a restart must find again. */
  ghost predicate Agree(a: States, b: States) {
    forall id :: SameStanding(Lookup(a, id), Lookup(b, id))
  }

  // ------------------------------------------------------------------ the loops of one pass, as folds

  /** What a pass has built up so far: the states, what to notify, and whether something changed. */
  datatype Work = Work(states: States, notes: seq<(string, Note)>, changed: bool)

  function Take(w: Work, id: Id, o: Outcome): Work {
    Work(Put(w.states, id, o.state), w.notes + (if o.note.Some? then [(id.key, o.note.value)] else []),
      w.changed || o.changed)
  }

  function SeeOne(rule: Rule, w: Work, r: Evaluation, now: Time, active: bool): Work {
    var id := Id(rule.id, r.key);
    Take(w, id, Seen(rule, Lookup(w.states, id), r, now, active))
  }

  function SeeAll(rule: Rule, w: Work, results: seq<Evaluation>, now: Time, active: bool): Work {
    if results == [] then w
    else SeeOne(rule, SeeAll(rule, w, results[..|results| - 1], now, active), results[|results| - 1], now, active)
  }

  function MissOne(rule: Rule, w: Work, key: string, now: Time, active: bool): Work {
    var id := Id(rule.id, key);
    if id in w.states then Take(w, id, Unseen(rule, w.states[id], now, active)) else w
  }

  function MissAll(rule: Rule, w: Work, keys: seq<string>, now: Time, active: bool): Work {
    if keys == [] then w
    else MissOne(rule, MissAll(rule, w, keys[..|keys| - 1], now, active), keys[|keys| - 1], now, active)
  }

  function PruneOne(rule: Rule, w: Work, key: string, now: Time): Work {
    var id := Id(rule.id, key);
    if Stale(Lookup(w.states, id), now) then w.(states := w.states - {id}, changed := true) else w
  }

  function PruneAll(rule: Rule, w: Work, keys: seq<string>, now: Time): Work {
    if keys == [] then w
    else PruneOne(rule, PruneAll(rule, w, keys[..|keys| - 1], now), keys[|keys| - 1], now)
  }

  predicate Announces(rule: Rule, note: Note) {
    note != Resolved || rule.notifyResolved
  }

  function Marked(rule: Rule, states: States, key: string, note: Note, now: Time): States {
    var id := Id(rule.id, key);
    if Announces(rule, note) && id in states then states[id := states[id].(lastNotifiedAt := Some(now))] else states
  }

  function AnnounceOne(rule: Rule, w: Work, note: (string, Note), now: Time): Work {
    w.(states := Marked(rule, w.states, note.0, note.1, now), changed := w.changed || Announces(rule, note.1))
  }

  function AnnounceAll(rule: Rule, w: Work, notes: seq<(string, Note)>, now: Time): Work {
    if notes == [] then w
    else AnnounceOne(rule, AnnounceAll(rule, w, notes[..|notes| - 1], now), notes[|notes| - 1], now)
  }

  // ------------------------------------------------------------------ what each loop does to one key

  /** Work `w'` differs from `w` at key `k` by outcome `o`, and otherwise only in the flag. */
  ghost predicate Did(rule: Rule, w: Work, w': Work, k: string, o: Outcome) {
    && Lookup(w'.states, Id(rule.id, k)) == o.state
    && NotesOf(w'.notes, k) == NotesOf(w.notes, k) + Listed(o.note)
  }

  lemma NotesOfConcat(notes: seq<(string, Note)>, key: string, note: Option<Note>, k: string)
    ensures NotesOf(notes + (if note.Some? then [(key, note.value)] else []), k)
         == NotesOf(notes, k) + if k == key then Listed(note) else []
  {
    if note.Some? {
      assert (notes + [(key, note.value)])[..|notes|] == notes;
    } else {
      assert notes + [] == notes;
    }
  }

  lemma TakeAt(rule: Rule, w: Work, key: string, o: Outcome, k: string)
    ensures Did(rule, w, Take(w, Id(rule.id, key), o), k,
              if k == key then o else Outcome(Lookup(w.states, Id(rule.id, k)), None, false))
  {
    NotesOfConcat(w.notes, key, o.note, k);
  }

  function Idle(w: Work, rule: Rule, k: string): Outcome {
    Outcome(Lookup(w.states, Id(rule.id, k)), None, false)
  }

  function SeenAt(rule: Rule, w: Work, results: seq<Evaluation>, now: Time, active: bool, k: string): Outcome {
    match ResultFor(results, k)
    case Some(r) => Seen(rule, Lookup(w.states, Id(rule.id, k)), r, now, active)
    case None => Idle(w, rule, k)
  }

  lemma {:induction false} ResultForIsIn(results: seq<Evaluation>, key: string)
    ensures ResultFor(results, key).Some?
            ==> ResultFor(results, key).value in results && ResultFor(results, key).value.key == key
    ensures ResultFor(results, key).None? ==> forall r :: r in results ==> r.key != key
  {
    if results != [] {
      ResultForIsIn(results[..|results| - 1], key);
      assert results == results[..|results| - 1] + [results[|results| - 1]];
    }
  }

  lemma {:induction false} SeeAllAt(rule: Rule, w: Work, results: seq<Evaluation>, now: Time, active: bool, k: string)
    requires Distinct(results)
    ensures Did(rule, w, SeeAll(rule, w, results, now, active), k, SeenAt(rule, w, results, now, active, k))
  {
    if results == [] {
      assert NotesOf(w.notes, k) + [] == NotesOf(w.notes, k);
    } else {
      var init, r := results[..|results| - 1], results[|results| - 1];
      SeeAllAt(rule, w, init, now, active, k);
      var v := SeeAll(rule, w, init, now, active);
      TakeAt(rule, v, r.key, Seen(rule, Lookup(v.states, Id(rule.id, r.key)), r, now, active), k);
      ResultForIsIn(init, k);
    }
  }

  function MissedAt(rule: Rule, w: Work, keys: seq<string>, now: Time, active: bool, k: string): Outcome {
    if k in keys && Id(rule.id, k) in w.states then Unseen(rule, w.states[Id(rule.id, k)], now, active)
      else Idle(w, rule, k)
  }

  ghost predicate NoRepeat(keys: seq<string>) {
    forall i, j :: 0 <= i < j < |keys| ==> keys[i] != keys[j]
  }

  lemma MissOneAt(rule: Rule, w: Work, key: string, now: Time, active: bool, k: string)
    ensures Did(rule, w, MissOne(rule, w, key, now, active), k, MissedAt(rule, w, [key], now, active, k))
  {
    if Id(rule.id, key) in w.states {
      TakeAt(rule, w, key, Unseen(rule, w.states[Id(rule.id, key)], now, active), k);
    } else {
      assert NotesOf(w.notes, k) + [] == NotesOf(w.notes, k);
    }
  }

  lemma {:induction false} MissAllAt(rule: Rule, w: Work, keys: seq<string>, now: Time, active: bool, k: string)
    requires NoRepeat(keys)
    ensures Did(rule, w, MissAll(rule, w, keys, now, active), k, MissedAt(rule, w, keys, now, active, k))
  {
    if keys == [] {
      assert NotesOf(w.notes, k) + [] == NotesOf(w.notes, k);
    } else {
      var init, key := keys[..|keys| - 1], keys[|keys| - 1];
      assert keys == init + [key] && key !in init;
      MissAllAt(rule, w, init, now, active, k);
      MissNextAt(rule, w, MissAll(rule, w, init, now, active), init, key, now, active, k);
    }
  }

  lemma MissNextAt(rule: Rule, w: Work, v: Work, init: seq<string>, key: string, now: Time, active: bool, k: string)
    requires Did(rule, w, v, k, MissedAt(rule, w, init, now, active, k)) && key !in init
    ensures Did(rule, w, MissOne(rule, v, key, now, active), k, MissedAt(rule, w, init + [key], now, active, k))
  {
    MissOneAt(rule, v, key, now, active, k);
    if k == key {
      assert k !in init;
    } else {
      assert k in init + [key] <==> k in init;
    }
  }

  function PrunedAt(rule: Rule, w: Work, keys: seq<string>, now: Time, k: string): Outcome {
    if k in keys && Stale(Lookup(w.states, Id(rule.id, k)), now) then Outcome(None, None, true) else Idle(w, rule, k)
  }

  lemma {:induction false} PruneAllAt(rule: Rule, w: Work, keys: seq<string>, now: Time, k: string)
    ensures Did(rule, w, PruneAll(rule, w, keys, now), k, PrunedAt(rule, w, keys, now, k))
    ensures PruneAll(rule, w, keys, now).notes == w.notes
  {
    if keys == [] {
      assert NotesOf(w.notes, k) + [] == NotesOf(w.notes, k);
    } else {
      var init, key := keys[..|keys| - 1], keys[|keys| - 1];
      assert keys == init + [key];
      PruneAllAt(rule, w, init, now, k);
      PruneAllAt(rule, w, init, now, key);
    }
  }

  predicate AnyAnnounced(rule: Rule, notes: seq<(string, Note)>, k: string) {
    && notes != []
    && ((notes[|notes| - 1].0 == k && Announces(rule, notes[|notes| - 1].1))
       || AnyAnnounced(rule, notes[..|notes| - 1], k))
  }

  lemma {:induction false} AnyAnnouncedMeans(rule: Rule, notes: seq<(string, Note)>, k: string, note: Option<Note>)
    requires NotesOf(notes, k) == Listed(note)
    ensures AnyAnnounced(rule, notes, k) <==> note.Some? && Announces(rule, note.value)
  {
    if notes != [] {
      var init, last := notes[..|notes| - 1], notes[|notes| - 1];
      if last.0 == k {
        assert NotesOf(notes, k)[|NotesOf(init, k)|] == last.1;
        assert |NotesOf(init, k)| == 0;
        AnyAnnouncedMeans(rule, init, k, None);
      } else {
        AnyAnnouncedMeans(rule, init, k, note);
      }
    }
  }

  function AnnouncedAt(rule: Rule, w: Work, notes: seq<(string, Note)>, now: Time, k: string): Option<State> {
    var s := Lookup(w.states, Id(rule.id, k));
    if s.Some? && AnyAnnounced(rule, notes, k) then Some(s.value.(lastNotifiedAt := Some(now))) else s
  }

  lemma {:induction false} AnnounceAllAt(rule: Rule, w: Work, notes: seq<(string, Note)>, now: Time, k: string)
    ensures Lookup(AnnounceAll(rule, w, notes, now).states, Id(rule.id, k)) == AnnouncedAt(rule, w, notes, now, k)
  {
    if notes != [] {
      var init, last := notes[..|notes| - 1], notes[|notes| - 1];
      AnnounceAllAt(rule, w, init, now, k);
      AnnounceAllAt(rule, w, init, now, last.0);
    }
  }

  // ------------------------------------------------------------------ the flag

  ghost predicate SomeSeen(rule: Rule, w: Work, results: seq<Evaluation>, now: Time, active: bool) {
    exists k :: SeenAt(rule, w, results, now, active, k).changed
  }

  ghost predicate SomeMissed(rule: Rule, w: Work, keys: seq<string>, now: Time, active: bool) {
    exists k :: MissedAt(rule, w, keys, now, active, k).changed
  }

  ghost predicate SomePruned(rule: Rule, w: Work, keys: seq<string>, now: Time) {
    exists k :: PrunedAt(rule, w, keys, now, k).changed
  }

  lemma {:induction false} SeeAllFlag(rule: Rule, w: Work, results: seq<Evaluation>, now: Time, active: bool)
    requires Distinct(results)
    ensures SeeAll(rule, w, results, now, active).changed <==> w.changed || SomeSeen(rule, w, results, now, active)
  {
    if results != [] {
      var init, r := results[..|results| - 1], results[|results| - 1];
      SeeAllFlag(rule, w, init, now, active);
      SeeAllAt(rule, w, init, now, active, r.key);
      ResultForIsIn(init, r.key);
      assert ResultFor(init, r.key).None?;
      forall k | k != r.key ensures SeenAt(rule, w, results, now, active, k) == SeenAt(rule, w, init, now, active, k) {
      }
      assert !SeenAt(rule, w, init, now, active, r.key).changed;
      assert SeenAt(rule, w, results, now, active, r.key)
             == Seen(rule, Lookup(w.states, Id(rule.id, r.key)), r, now, active);
    }
  }

  lemma {:induction false} MissAllFlag(rule: Rule, w: Work, keys: seq<string>, now: Time, active: bool)
    requires NoRepeat(keys)
    ensures MissAll(rule, w, keys, now, active).changed <==> w.changed || SomeMissed(rule, w, keys, now, active)
  {
    if keys != [] {
      var init, key := keys[..|keys| - 1], keys[|keys| - 1];
      assert keys == init + [key] && key !in init;
      MissAllFlag(rule, w, init, now, active);
      MissAllAt(rule, w, init, now, active, key);
      forall k | k != key ensures MissedAt(rule, w, keys, now, active, k) == MissedAt(rule, w, init, now, active, k) {
      }
      assert !MissedAt(rule, w, init, now, active, key).changed;
      var o := MissedAt(rule, w, keys, now, active, key);
      assert Id(rule.id, key) in w.states ==> o == Unseen(rule, w.states[Id(rule.id, key)], now, active);
    }
  }

  lemma {:induction false} PruneAllFlag(rule: Rule, w: Work, keys: seq<string>, now: Time)
    ensures PruneAll(rule, w, keys, now).changed <==> w.changed || SomePruned(rule, w, keys, now)
  {
    if keys != [] {
      var init, key := keys[..|keys| - 1], keys[|keys| - 1];
      assert keys == init + [key];
      PruneAllFlag(rule, w, init, now);
      PruneAllAt(rule, w, init, now, key);
      assert forall k :: PrunedAt(rule, w, init, now, k).changed ==> PrunedAt(rule, w, keys, now, k).changed;
      assert Stale(Lookup(w.states, Id(rule.id, key)), now) ==> PrunedAt(rule, w, keys, now, key).changed;
    }
  }

  ghost predicate SomeAnnounced(rule: Rule, notes: seq<(string, Note)>) {
    exists k :: AnyAnnounced(rule, notes, k)
  }

  lemma {:induction false} AnnounceAllFlag(rule: Rule, w: Work, notes: seq<(string, Note)>, now: Time)
    ensures AnnounceAll(rule, w, notes, now).changed <==> w.changed || SomeAnnounced(rule, notes)
  {
    if notes != [] {
      var init, last := notes[..|notes| - 1], notes[|notes| - 1];
      AnnounceAllFlag(rule, w, init, now);
      assert Announces(rule, last.1) ==> AnyAnnounced(rule, notes, last.0);
      assert forall k :: AnyAnnounced(rule, init, k) ==> AnyAnnounced(rule, notes, k);
      if SomeAnnounced(rule, notes) && !Announces(rule, last.1) {
        var k :| AnyAnnounced(rule, notes, k);
        assert AnyAnnounced(rule, init, k);
      }
    }
  }

  // ------------------------------------------------------------------ the whole pass

  function PassWork(rule: Rule, states: States, results: seq<Evaluation>, unseen: seq<string>, settled: seq<string>,
      now: Time, active: bool): Work {
    var pruned := Loops(rule, states, results, unseen, settled, now, active);
    AnnounceAll(rule, pruned, pruned.notes, now)
  }

  /** The three loops over the states, before anything is announced. */
  function Loops(rule: Rule, states: States, results: seq<Evaluation>, unseen: seq<string>, settled: seq<string>,
      now: Time, active: bool): Work {
    var seen := SeeAll(rule, Work(states, [], false), results, now, active);
    PruneAll(rule, MissAll(rule, seen, unseen, now, active), settled, now)
  }

  ghost predicate UnseenKeys(rule: Rule, states: States, results: seq<Evaluation>, unseen: seq<string>) {
    NoRepeat(unseen) && forall k :: k in unseen <==> Id(rule.id, k) in states && ResultFor(results, k).None?
  }

  /** The keys looked at by the pruning loop: at least those whose state is ok. */
  ghost predicate SettledKeys(rule: Rule, states: States, settled: seq<string>) {
    forall k :: Id(rule.id, k) in states && states[Id(rule.id, k)].status == Ok ==> k in settled
  }

  /** The lists the loops run over are those of the moment each loop begins. */
  ghost predicate Ready(rule: Rule, states: States, results: seq<Evaluation>, unseen: seq<string>, settled: seq<string>,
      now: Time, active: bool) {
    var seen := SeeAll(rule, Work(states, [], false), results, now, active);
    && Distinct(results)
    && UnseenKeys(rule, seen.states, results, unseen)
    && SettledKeys(rule, MissAll(rule, seen, unseen, now, active).states, settled)
  }

  function Stepped(rule: Rule, states: States, results: seq<Evaluation>, now: Time, active: bool, k: string): Outcome {
    Step(rule, Lookup(states, Id(rule.id, k)), ResultFor(results, k), now, active)
  }

  ghost predicate SomeStepped(rule: Rule, states: States, results: seq<Evaluation>, now: Time, active: bool) {
    exists k :: Stepped(rule, states, results, now, active, k).changed
  }

  /** What the loops over the results and over the keys not seen do to a key. */
  lemma LoopsJudge(rule: Rule, states: States, results: seq<Evaluation>, unseen: seq<string>, settled: seq<string>,
                   now: Time, active: bool, k: string)
    requires Ready(rule, states, results, unseen, settled, now, active)
    ensures var start := Work(states, [], false);
            var seen := SeeAll(rule, start, results, now, active);
            var missed := MissAll(rule, seen, unseen, now, active);
            var o := Judge(rule, Lookup(states, Id(rule.id, k)), ResultFor(results, k), now, active);
            && Did(rule, start, missed, k, o)
            && (o.changed <==> SeenAt(rule, start, results, now, active, k).changed
                               || MissedAt(rule, seen, unseen, now, active, k).changed)
  {
    var start := Work(states, [], false);
    var seen := SeeAll(rule, start, results, now, active);
    SeeAllAt(rule, start, results, now, active, k);
    MissAllAt(rule, seen, unseen, now, active, k);
  }

  /** Pruning after what was judged, seen from one key. */
  lemma PruneAfter(rule: Rule, start: Work, missed: Work, settled: seq<string>, now: Time, k: string, o: Outcome)
    requires start.notes == [] && Did(rule, start, missed, k, o) && SettledKeys(rule, missed.states, settled)
    ensures var pruned := PruneAll(rule, missed, settled, now);
            && Lookup(pruned.states, Id(rule.id, k)) == Prune(o, now).state
            && NotesOf(pruned.notes, k) == Listed(Prune(o, now).note)
            && (Prune(o, now).changed <==> o.changed || PrunedAt(rule, missed, settled, now, k).changed)
  {
    PruneAllAt(rule, missed, settled, now, k);
  }

  /** What the three loops over the states do to a key before anything is announced. */
  lemma LoopsAreJudgeAndPrune(rule: Rule, states: States, results: seq<Evaluation>, unseen: seq<string>,
      settled: seq<string>, now: Time, active: bool, k: string)
    requires Ready(rule, states, results, unseen, settled, now, active)
    ensures var start := Work(states, [], false);
            var seen := SeeAll(rule, start, results, now, active);
            var missed := MissAll(rule, seen, unseen, now, active);
            var pruned := PruneAll(rule, missed, settled, now);
            var o := Prune(Judge(rule, Lookup(states, Id(rule.id, k)), ResultFor(results, k), now, active), now);
            && Lookup(pruned.states, Id(rule.id, k)) == o.state
            && NotesOf(pruned.notes, k) == Listed(o.note)
            && (o.changed <==> SeenAt(rule, start, results, now, active, k).changed
                               || MissedAt(rule, seen, unseen, now, active, k).changed
                               || PrunedAt(rule, missed, settled, now, k).changed)
  {
    var start := Work(states, [], false);
    var missed := MissAll(rule, SeeAll(rule, start, results, now, active), unseen, now, active);
    LoopsJudge(rule, states, results, unseen, settled, now, active, k);
    PruneAfter(rule, start, missed, settled, now, k,
      Judge(rule, Lookup(states, Id(rule.id, k)), ResultFor(results, k), now, active));
  }

  lemma PassIsStepAt(rule: Rule, states: States, results: seq<Evaluation>, unseen: seq<string>, settled: seq<string>,
                     now: Time, active: bool, k: string)
    requires Ready(rule, states, results, unseen, settled, now, active)
    ensures var w := PassWork(rule, states, results, unseen, settled, now, active);
            var o := Stepped(rule, states, results, now, active, k);
            && Lookup(w.states, Id(rule.id, k)) == o.state
            && NotesOf(w.notes, k) == Listed(o.note)
  {
    var seen := SeeAll(rule, Work(states, [], false), results, now, active);
    var pruned := PruneAll(rule, MissAll(rule, seen, unseen, now, active), settled, now);
    LoopsAreJudgeAndPrune(rule, states, results, unseen, settled, now, active, k);
    AnnounceAllAt(rule, pruned, pruned.notes, now, k);
    AnnounceKeepsNotes(rule, pruned, pruned.notes, now);
    AnyAnnouncedMeans(rule, pruned.notes, k, Stepped(rule, states, results, now, active, k).note);
  }

  lemma {:induction false} AnnounceKeepsNotes(rule: Rule, w: Work, notes: seq<(string, Note)>, now: Time)
    ensures AnnounceAll(rule, w, notes, now).notes == w.notes
  {
    if notes != [] {
      AnnounceKeepsNotes(rule, w, notes[..|notes| - 1], now);
    }
  }

  lemma PassFlag(rule: Rule, states: States, results: seq<Evaluation>, unseen: seq<string>, settled: seq<string>,
      now: Time, active: bool)
    requires Ready(rule, states, results, unseen, settled, now, active)
    ensures PassWork(rule, states, results, unseen, settled, now, active).changed
       <==> SomeStepped(rule, states, results, now, active)
  {
    var start := Work(states, [], false);
    var seen := SeeAll(rule, start, results, now, active);
    var missed := MissAll(rule, seen, unseen, now, active);
    var pruned := PruneAll(rule, missed, settled, now);
    SeeAllFlag(rule, start, results, now, active);
    MissAllFlag(rule, seen, unseen, now, active);
    PruneAllFlag(rule, missed, settled, now);
    AnnounceAllFlag(rule, pruned, pruned.notes, now);
    if SomeStepped(rule, states, results, now, active) {
      var k :| Stepped(rule, states, results, now, active, k).changed;
      StepFlagAt(rule, states, results, unseen, settled, now, active, k);
    }
    if SomeSeen(rule, start, results, now, active) {
      var k :| SeenAt(rule, start, results, now, active, k).changed;
      StepFlagAt(rule, states, results, unseen, settled, now, active, k);
    }
    if SomeMissed(rule, seen, unseen, now, active) {
      var k :| MissedAt(rule, seen, unseen, now, active, k).changed;
      StepFlagAt(rule, states, results, unseen, settled, now, active, k);
    }
    if SomePruned(rule, missed, settled, now) {
      var k :| PrunedAt(rule, missed, settled, now, k).changed;
      StepFlagAt(rule, states, results, unseen, settled, now, active, k);
    }
    if SomeAnnounced(rule, pruned.notes) {
      var k :| AnyAnnounced(rule, pruned.notes, k);
      StepFlagAt(rule, states, results, unseen, settled, now, active, k);
    }
  }

  lemma StepFlagAt(rule: Rule, states: States, results: seq<Evaluation>, unseen: seq<string>, settled: seq<string>,
                   now: Time, active: bool, k: string)
    requires Ready(rule, states, results, unseen, settled, now, active)
    ensures var start := Work(states, [], false);
            var seen := SeeAll(rule, start, results, now, active);
            var missed := MissAll(rule, seen, unseen, now, active);
            (Stepped(rule, states, results, now, active, k).changed
             <==> SeenAt(rule, start, results, now, active, k).changed
                  || MissedAt(rule, seen, unseen, now, active, k).changed
                  || PrunedAt(rule, missed, settled, now, k).changed
                  || AnyAnnounced(rule, PruneAll(rule, missed, settled, now).notes, k))
  {
    LoopsAreJudgeAndPrune(rule, states, results, unseen, settled, now, active, k);
    AnyAnnouncedMeans(rule,
      PruneAll(rule, MissAll(rule, SeeAll(rule, Work(states, [], false), results, now, active), unseen, now, active),
        settled, now).notes,
      k, Stepped(rule, states, results, now, active, k).note);
  }

  lemma LoopsLeaveOthers(rule: Rule, states: States, results: seq<Evaluation>, unseen: seq<string>,
      settled: seq<string>, now: Time, active: bool, id: Id)
    requires id.rule != rule.id
    ensures Lookup(Loops(rule, states, results, unseen, settled, now, active).states, id) == Lookup(states, id)
  {
    var seen := SeeAll(rule, Work(states, [], false), results, now, active);
    var missed := MissAll(rule, seen, unseen, now, active);
    SeeLeaves(rule, Work(states, [], false), results, now, active, id);
    MissLeaves(rule, seen, unseen, now, active, id);
    PruneLeaves(rule, missed, settled, now, id);
  }

  lemma PassLeavesOthers(rule: Rule, states: States, results: seq<Evaluation>, unseen: seq<string>,
      settled: seq<string>, now: Time, active: bool, id: Id)
    requires id.rule != rule.id
    ensures Lookup(PassWork(rule, states, results, unseen, settled, now, active).states, id) == Lookup(states, id)
  {
    var pruned := Loops(rule, states, results, unseen, settled, now, active);
    LoopsLeaveOthers(rule, states, results, unseen, settled, now, active, id);
    AnnounceLeaves(rule, pruned, pruned.notes, now, id);
  }

  lemma {:induction false} SeeLeaves(rule: Rule, w: Work, results: seq<Evaluation>, now: Time, active: bool, id: Id)
    requires id.rule != rule.id
    ensures Lookup(SeeAll(rule, w, results, now, active).states, id) == Lookup(w.states, id)
  {
    if results != [] { SeeLeaves(rule, w, results[..|results| - 1], now, active, id); }
  }

  lemma {:induction false} MissLeaves(rule: Rule, w: Work, keys: seq<string>, now: Time, active: bool, id: Id)
    requires id.rule != rule.id
    ensures Lookup(MissAll(rule, w, keys, now, active).states, id) == Lookup(w.states, id)
  {
    if keys != [] { MissLeaves(rule, w, keys[..|keys| - 1], now, active, id); }
  }

  lemma {:induction false} PruneLeaves(rule: Rule, w: Work, keys: seq<string>, now: Time, id: Id)
    requires id.rule != rule.id
    ensures Lookup(PruneAll(rule, w, keys, now).states, id) == Lookup(w.states, id)
  {
    if keys != [] { PruneLeaves(rule, w, keys[..|keys| - 1], now, id); }
  }

  lemma {:induction false} AnnounceLeaves(rule: Rule, w: Work, notes: seq<(string, Note)>, now: Time, id: Id)
    requires id.rule != rule.id
    ensures Lookup(AnnounceAll(rule, w, notes, now).states, id) == Lookup(w.states, id)
  {
    if notes != [] { AnnounceLeaves(rule, w, notes[..|notes| - 1], now, id); }
  }

  /** A pass over a rule, as seen from outside: every key makes its step, other rules' states stay. */
  ghost predicate Passed(rule: Rule, before: States, results: seq<Evaluation>, now: Time, active: bool,
                         after: States, notes: seq<(string, Note)>, changed: bool) {
    && (forall k :: Lookup(after, Id(rule.id, k)) == Stepped(rule, before, results, now, active, k).state)
    && (forall k :: NotesOf(notes, k) == Listed(Stepped(rule, before, results, now, active, k).note))
    && (forall id: Id :: id.rule != rule.id ==> Lookup(after, id) == Lookup(before, id))
    && (changed <==> SomeStepped(rule, before, results, now, active))
  }

  lemma PassIsStep(rule: Rule, states: States, results: seq<Evaluation>, unseen: seq<string>, settled: seq<string>,
      now: Time, active: bool)
    requires Ready(rule, states, results, unseen, settled, now, active)
    ensures var w := PassWork(rule, states, results, unseen, settled, now, active);
            Passed(rule, states, results, now, active, w.states, w.notes, w.changed)
  {
    forall k
      ensures Lookup(PassWork(rule, states, results, unseen, settled, now, active).states, Id(rule.id, k))
              == Stepped(rule, states, results, now, active, k).state
      ensures NotesOf(PassWork(rule, states, results, unseen, settled, now, active).notes, k)
              == Listed(Stepped(rule, states, results, now, active, k).note)
    {
      PassIsStepAt(rule, states, results, unseen, settled, now, active, k);
    }
    forall id: Id | id.rule != rule.id
      ensures Lookup(PassWork(rule, states, results, unseen, settled, now, active).states, id) == Lookup(states, id)
    {
      PassLeavesOthers(rule, states, results, unseen, settled, now, active, id);
    }
    PassFlag(rule, states, results, unseen, settled, now, active);
  }

  /** A pass reports a change exactly when memory no longer agrees with what it was. */
  lemma PassFlagIsDisagreement(rule: Rule, before: States, results: seq<Evaluation>, now: Time, active: bool,
                               after: States, notes: seq<(string, Note)>, changed: bool)
    requires Passed(rule, before, results, now, active, after, notes, changed)
    ensures changed <==> !Agree(before, after)
  {
    forall k ensures Stepped(rule, before, results, now, active, k).changed
                <==> !SameStanding(Lookup(after, Id(rule.id, k)), Lookup(before, Id(rule.id, k))) {
      ChangedMeansOtherStanding(rule, Lookup(before, Id(rule.id, k)), ResultFor(results, k), now, active);
    }
    if changed {
      var k :| Stepped(rule, before, results, now, active, k).changed;
      assert !SameStanding(Lookup(before, Id(rule.id, k)), Lookup(after, Id(rule.id, k)));
    } else {
      forall id ensures SameStanding(Lookup(before, id), Lookup(after, id)) {
        if id.rule == rule.id {
          assert id == Id(rule.id, id.key);
        }
      }
    }
  }

  // ------------------------------------------------------------------ a pass cut short

  /** A key's step, without the notification time unless the key is marked. */
  function Cut(rule: Rule, states: States, results: seq<Evaluation>, now: Time, active: bool, k: string,
      marked: set<string>): Outcome {
    var o := Prune(Judge(rule, Lookup(states, Id(rule.id, k)), ResultFor(results, k), now, active), now);
    if k in marked then Announce(rule, o, now) else o
  }

  /** A pass that an exception ends while notifying: all states are judged, some keys marked, some notes recorded. */
  ghost predicate CutShort(rule: Rule, before: States, results: seq<Evaluation>, now: Time, active: bool,
                           after: States, notes: seq<(string, Note)>, marked: set<string>, recorded: set<string>) {
    && (forall k :: Lookup(after, Id(rule.id, k)) == Cut(rule, before, results, now, active, k, marked).state)
    && (forall k :: NotesOf(notes, k)
          == if k in recorded then Listed(Stepped(rule, before, results, now, active, k).note) else [])
    && (forall id: Id :: id.rule != rule.id ==> Lookup(after, id) == Lookup(before, id))
  }

  function KeysIn(notes: seq<(string, Note)>): set<string> {
    set n | n in notes :: n.0
  }

  lemma {:induction false} KeysAreNoted(notes: seq<(string, Note)>, k: string)
    ensures k in KeysIn(notes) <==> NotesOf(notes, k) != []
  {
    if notes != [] {
      var init, last := notes[..|notes| - 1], notes[|notes| - 1];
      KeysAreNoted(init, k);
      assert notes == init + [last];
      assert forall n :: n in notes <==> n in init || n == last;
    }
  }

  /** A beginning of the notes has all notes of a key or none, as there is one at most. */
  lemma {:induction false} NotesOfBeginning(notes: seq<(string, Note)>, m: nat, k: string)
    requires m <= |notes| && |NotesOf(notes, k)| <= 1
    ensures NotesOf(notes[..m], k) == NotesOf(notes, k) || NotesOf(notes[..m], k) == []
  {
    if m < |notes| {
      assert notes[..|notes| - 1][..m] == notes[..m];
      NotesOfBeginning(notes[..|notes| - 1], m, k);
    } else {
      assert notes[..m] == notes;
    }
  }

  /** The first m notes mark their keys, the first e are recorded: what this makes of a key. */
  lemma PartlyAnnouncedAt(rule: Rule, states: States, results: seq<Evaluation>, unseen: seq<string>,
      settled: seq<string>, now: Time, active: bool, m: nat, e: nat, k: string)
    requires Ready(rule, states, results, unseen, settled, now, active)
    requires var pruned := Loops(rule, states, results, unseen, settled, now, active);
      m <= |pruned.notes| && e <= |pruned.notes|
    ensures var pruned := Loops(rule, states, results, unseen, settled, now, active);
      var marked, recorded := KeysIn(pruned.notes[..m]), KeysIn(pruned.notes[..e]);
      && Lookup(AnnounceAll(rule, pruned, pruned.notes[..m], now).states, Id(rule.id, k))
         == Cut(rule, states, results, now, active, k, marked).state
      && NotesOf(pruned.notes[..e], k)
         == if k in recorded then Listed(Stepped(rule, states, results, now, active, k).note) else []
  {
    var pruned := Loops(rule, states, results, unseen, settled, now, active);
    var note := Stepped(rule, states, results, now, active, k).note;
    LoopsAreJudgeAndPrune(rule, states, results, unseen, settled, now, active, k);
    NotesOfBeginning(pruned.notes, m, k);
    NotesOfBeginning(pruned.notes, e, k);
    KeysAreNoted(pruned.notes[..m], k);
    KeysAreNoted(pruned.notes[..e], k);
    AnnounceAllAt(rule, pruned, pruned.notes[..m], now, k);
    AnyAnnouncedMeans(rule, pruned.notes[..m], k, if k in KeysIn(pruned.notes[..m]) then note else None);
  }

  lemma PartlyAnnouncedIsCutShort(rule: Rule, states: States, results: seq<Evaluation>, unseen: seq<string>,
      settled: seq<string>, now: Time, active: bool, m: nat, e: nat)
    requires Ready(rule, states, results, unseen, settled, now, active)
    requires var pruned := Loops(rule, states, results, unseen, settled, now, active);
      m <= |pruned.notes| && e <= |pruned.notes|
    ensures var pruned := Loops(rule, states, results, unseen, settled, now, active);
      CutShort(rule, states, results, now, active, AnnounceAll(rule, pruned, pruned.notes[..m], now).states,
        pruned.notes[..e], KeysIn(pruned.notes[..m]), KeysIn(pruned.notes[..e]))
  {
    var pruned := Loops(rule, states, results, unseen, settled, now, active);
    var marked, recorded := KeysIn(pruned.notes[..m]), KeysIn(pruned.notes[..e]);
    forall k
      ensures Lookup(AnnounceAll(rule, pruned, pruned.notes[..m], now).states, Id(rule.id, k))
              == Cut(rule, states, results, now, active, k, marked).state
      ensures NotesOf(pruned.notes[..e], k)
              == if k in recorded then Listed(Stepped(rule, states, results, now, active, k).note) else []
    {
      PartlyAnnouncedAt(rule, states, results, unseen, settled, now, active, m, e, k);
    }
    forall id: Id | id.rule != rule.id
      ensures Lookup(AnnounceAll(rule, pruned, pruned.notes[..m], now).states, id) == Lookup(states, id)
    {
      LoopsLeaveOthers(rule, states, results, unseen, settled, now, active, id);
      AnnounceLeaves(rule, pruned, pruned.notes[..m], now, id);
    }
  }

  // ------------------------------------------------------------------ the engine

  /** Lists a set once, in an order of its own choosing. */
  method InSomeOrder(keys: set<string>) returns (order: seq<string>)
    ensures NoRepeat(order) && forall k :: k in order <==> k in keys
  {
    order := [];
    var rest := keys;
    while rest != {}
      invariant rest <= keys && NoRepeat(order)
      invariant forall k :: k in order <==> k in keys - rest
      decreases rest
    {
      var k :| k in rest;
      assert k !in order;
      order := order + [k];
      rest := rest - {k};
    }
  }

  lemma {:induction false} EventsOfOne(rule: string, notes: seq<(string, Note)>, i: nat)
    requires i < |notes|
    ensures EventsOf(rule, notes[..i + 1]) == EventsOf(rule, notes[..i]) + [Event(rule, notes[i].0, notes[i].1)]
  {
    assert notes[..i + 1][..i] == notes[..i];
  }

  /** Where a note fails: before the key is marked as notified, before the note is recorded, or as it is being saved. */
  datatype Failure = Sending | Recording | Saving

  datatype NoteStop = NoteStop(note: nat, failure: Failure)

  /** An exception that leaves the round: at the evaluation of a rule, or at one of the notes of its pass. */
  datatype Stop = AtRule(turn: nat) | AtNote(turn: nat, at: NoteStop)

  /** One round's input for a rule: its evaluation, or None when evaluating it failed; and whether its hours are on. */
  datatype Turn = Turn(rule: Rule, results: Option<seq<Evaluation>>, active: bool)

  ghost predicate DistinctRules(turns: seq<Turn>) {
    forall i, j :: 0 <= i < j < |turns| ==> turns[i].rule.id != turns[j].rule.id
  }

  /** What a round makes of a state: its rule's step, nothing when the evaluation failed,
    removal when no enabled rule owns it. */
  function Rounded(turns: seq<Turn>, states: States, now: Time, id: Id): Option<State> {
    if turns == [] then None
    else
      var t := turns[|turns| - 1];
      if t.rule.id == id.rule && t.rule.enabled then
        match t.results
        case Some(results) => Stepped(t.rule, states, results, now, t.active, id.key).state
        case None => Lookup(states, id)
      else Rounded(turns[..|turns| - 1], states, now, id)
  }

  /** What a round records about a key, if anything. */
  function Noted(turns: seq<Turn>, states: States, now: Time, id: Id): Option<Note> {
    if turns == [] then None
    else
      var t := turns[|turns| - 1];
      if t.rule.id == id.rule && t.rule.enabled && t.results.Some?
      then Stepped(t.rule, states, t.results.value, now, t.active, id.key).note
      else Noted(turns[..|turns| - 1], states, now, id)
  }

  /** The states in memory and on disk, the history of recorded events in memory and on disk, at some moment. */
  datatype Moment = Moment(states: States, persisted: States, events: seq<Event>, filed: seq<Event>)

  /** What is on disk of the history: all of it, since the last time a note was saved. */
  function Filed(filed: seq<Event>, before: seq<Event>, after: seq<Event>, saved: bool): seq<Event> {
    var kept := if saved || after == [] then after else after[..|after| - 1];
    if kept == before then filed else kept
  }

  lemma FiledNext(filed: seq<Event>, before: seq<Event>, after: seq<Event>, e: Event)
    requires before <= after
    ensures Filed(filed, before, after + [e], true) == after + [e]
    ensures Filed(filed, before, after + [e], false) == Filed(filed, before, after, true)
  {
  }

  lemma FiledTwice(filed: seq<Event>, a: seq<Event>, b: seq<Event>, c: seq<Event>, saved: bool)
    requires a <= b <= c && (!saved ==> b < c)
    ensures Filed(Filed(filed, a, b, true), b, c, saved) == Filed(filed, a, c, saved)
  {
  }

  /** The passes of a round are made: each key has taken its step, and what the step notes is recorded once. */
  ghost predicate HasRun(turns: seq<Turn>, now: Time, before: Moment, after: Moment) {
    && before.events <= after.events && after.filed == Filed(before.filed, before.events, after.events, true)
    && after.persisted == before.persisted
    && forall id :: Lookup(after.states, id) == HalfRounded(turns, before.states, now, id)
         && About(after.events, id) == About(before.events, id) + Listed(Noted(turns, before.states, now, id))
  }

  /** `stop`: where an exception leaves the round, if it does; `saved`: whether the states can be stored at its end. */
  datatype Round = Round(turns: seq<Turn>, now: Time, stop: Option<Stop>, saved: bool)

  /**
   What became of a round. One that stopped in a turn may have judged the states of its rule (`begun`), marked some keys
   as notified and recorded some notes; the last of these may not be saved.
   */
  datatype Done = Whole | Stopped(turn: nat, begun: bool, marked: set<string>, recorded: set<string>, saved: bool)

  ghost predicate IsDistinct(r: Round) {
    DistinctRules(r.turns) && forall t :: t in r.turns && t.results.Some? ==> Distinct(t.results.value)
  }

  /** A whole round: states without an enabled rule are gone besides, and what has changed is stored if it can be. */
  ghost predicate HasRounded(r: Round, before: Moment, after: Moment) {
    && before.events <= after.events && after.filed == Filed(before.filed, before.events, after.events, true)
    && after.persisted == (if Agree(before.states, after.states) || !r.saved then before.persisted else after.states)
    && forall id :: Lookup(after.states, id) == Rounded(r.turns, before.states, r.now, id)
         && About(after.events, id) == About(before.events, id) + Listed(Noted(r.turns, before.states, r.now, id))
  }

  /** The stop is in the pass of this key's rule. */
  predicate IsCut(r: Round, d: Done, id: Id) {
    d.Stopped? && d.begun && d.turn < |r.turns| && r.turns[d.turn].rule.id == id.rule && r.turns[d.turn].results.Some?
  }

  /** What a round that stopped makes of a state: later rules have not had their turn. */
  function StoppedState(r: Round, d: Done, states: States, id: Id): Option<State>
    requires d.Stopped?
  {
    if IsCut(r, d, id) then
      var t := r.turns[d.turn];
      Cut(t.rule, states, t.results.value, r.now, t.active, id.key, d.marked).state
    else if d.turn <= |r.turns| then HalfRounded(r.turns[..d.turn], states, r.now, id)
    else Lookup(states, id)
  }

  function StoppedNote(r: Round, d: Done, states: States, id: Id): Option<Note>
    requires d.Stopped?
  {
    if IsCut(r, d, id) then
      var t := r.turns[d.turn];
      if id.key in d.recorded then Stepped(t.rule, states, t.results.value, r.now, t.active, id.key).note else None
    else if d.turn <= |r.turns| then Noted(r.turns[..d.turn], states, r.now, id)
    else None
  }

  /** A round that an exception has left. */
  ghost predicate HasStopped(r: Round, d: Done, before: Moment, after: Moment)
    requires d.Stopped?
  {
    && d.turn < |r.turns| && after.persisted == before.persisted
    && before.events <= after.events && (!d.saved ==> before.events < after.events)
    && after.filed == Filed(before.filed, before.events, after.events, d.saved)
    && forall id :: Lookup(after.states, id) == StoppedState(r, d, before.states, id)
         && About(after.events, id) == About(before.events, id) + Listed(StoppedNote(r, d, before.states, id))
  }

  /** A round is run, or the process starts again from what is on disk. */
  datatype Doing = Ran(round: Round, done: Done) | Restarted

  ghost predicate Happened(d: Doing, before: Moment, after: Moment) {
    match d
    case Ran(r, Whole) => HasRounded(r, before, after)
    case Ran(r, done) => HasStopped(r, done, before, after)
    case Restarted => after == Moment(before.persisted, before.persisted, before.filed, before.filed)
  }

  /** One moment before the first doing and one after each. */
  ghost predicate History(doings: seq<Doing>, log: seq<Moment>) {
    |log| == |doings| + 1 && forall i :: 0 <= i < |doings| ==> Happened(doings[i], log[i], log[i + 1])
  }

  class Engine {
    var states: States
    var persisted: States
    var events: seq<Event>
    var filed: seq<Event>

    /** What is stored is read back at start. */
    constructor (stored: States, history: seq<Event>)
      ensures Now() == Moment(stored, stored, history, history)
    {
      states, persisted, events, filed := stored, stored, history, history;
    }

    function Now(): Moment
      reads this
    {
      Moment(states, persisted, events, filed)
    }

    method SeeResults(rule: Rule, results: seq<Evaluation>, now: Time, active: bool)
      returns (changed: bool, toNotify: seq<(string, Note)>)
      modifies this`states
      ensures Work(states, toNotify, changed) == SeeAll(rule, Work(old(states), [], false), results, now, active)
    {
      ghost var start := Work(states, [], false);
      changed, toNotify := false, [];
      for i := 0 to |results|
        invariant Work(states, toNotify, changed) == SeeAll(rule, start, results[..i], now, active)
      {
        assert results[..i + 1][..i] == results[..i];
        var r := results[i];
        var id := Id(rule.id, r.key);
        var o := Seen(rule, Lookup(states, id), r, now, active);
        states := Put(states, id, o.state);
        toNotify := toNotify + if o.note.Some? then [(r.key, o.note.value)] else [];
        changed := changed || o.changed;
      }
      assert results[..|results|] == results;
    }

    method SettleUnseen(rule: Rule, unseen: seq<string>, now: Time, active: bool, changed0: bool,
        notes0: seq<(string, Note)>)
      returns (changed: bool, toNotify: seq<(string, Note)>)
      modifies this`states
      ensures Work(states, toNotify, changed) == MissAll(rule, Work(old(states), notes0, changed0), unseen, now, active)
    {
      ghost var start := Work(states, notes0, changed0);
      changed, toNotify := changed0, notes0;
      for i := 0 to |unseen|
        invariant Work(states, toNotify, changed) == MissAll(rule, start, unseen[..i], now, active)
      {
        assert unseen[..i + 1][..i] == unseen[..i];
        var id := Id(rule.id, unseen[i]);
        if id in states {
          var o := Unseen(rule, states[id], now, active);
          states := Put(states, id, o.state);
          toNotify := toNotify + if o.note.Some? then [(id.key, o.note.value)] else [];
          changed := changed || o.changed;
        }
      }
      assert unseen[..|unseen|] == unseen;
    }

    method PruneSettled(rule: Rule, settled: seq<string>, now: Time, changed0: bool, ghost notes: seq<(string, Note)>)
      returns (changed: bool)
      modifies this`states
      ensures Work(states, notes, changed) == PruneAll(rule, Work(old(states), notes, changed0), settled, now)
    {
      ghost var start := Work(states, notes, changed0);
      changed := changed0;
      for i := 0 to |settled|
        invariant Work(states, notes, changed) == PruneAll(rule, start, settled[..i], now)
      {
        assert settled[..i + 1][..i] == settled[..i];
        var id := Id(rule.id, settled[i]);
        if id in states && states[id].status == Ok && now - states[id].since > HOUR {
          states := states - {id};
          changed := true;
        }
      }
      assert settled[..|settled|] == settled;
    }

    /** One note: the key is marked as notified, the note recorded and the history saved, up to what fails. */
    method AnnounceNote(rule: Rule, key: string, note: Note, now: Time, failure: Option<Failure>)
      modifies this`states, this`events, this`filed
      ensures failure == Some(Sending) ==> states == old(states)
      ensures failure != Some(Sending) ==> states == Marked(rule, old(states), key, note, now)
      ensures events == old(events) + if IsRecorded(failure) then [Event(rule.id, key, note)] else []
      ensures filed == if failure.None? then events else old(filed)
    {
      if failure == Some(Sending) { return; }
      states := Marked(rule, states, key, note, now);
      if failure == Some(Recording) { return; }
      events := events + [Event(rule.id, key, note)];
      if failure == Some(Saving) { return; }
      filed := events;
    }

    /**
     The notifications are recorded in the history; sending them is not modelled. An exception may end the loop: then
     the first `m` keys are marked and the first `e` notes recorded.
     */
    method AnnounceNotes(rule: Rule, toNotify: seq<(string, Note)>, now: Time, changed0: bool, stop: Option<NoteStop>)
      returns (changed: bool, stopped: bool, ghost m: nat, ghost e: nat)
      modifies this`states, this`events, this`filed
      ensures e <= m <= |toNotify| && m <= e + 1 && (!stopped ==> e == |toNotify|) && (stop.None? ==> !stopped)
      ensures Work(states, toNotify, changed)
              == AnnounceAll(rule, Work(old(states), toNotify, changed0), toNotify[..m], now)
      ensures events == old(events) + EventsOf(rule.id, toNotify[..e]) && (IsUnsaved(stopped, stop) ==> e > 0)
      ensures filed == Filed(old(filed), old(events), events, !IsUnsaved(stopped, stop))
    {
      ghost var start := Work(states, toNotify, changed0);
      changed, stopped := changed0, false;
      for i := 0 to |toNotify|
        invariant !stopped
        invariant Work(states, toNotify, changed) == AnnounceAll(rule, start, toNotify[..i], now)
        invariant events == old(events) + EventsOf(rule.id, toNotify[..i])
        invariant old(events) <= events && filed == Filed(old(filed), old(events), events, true)
      {
        hide EventsOf, AnnounceAll, Filed, Marked, Announces;
        FiledNext(old(filed), old(events), events, Event(rule.id, toNotify[i].0, toNotify[i].1));
        AnnounceNext(rule, start, toNotify, i, now);
        EventsNext(old(events), rule.id, toNotify, i);
        var (key, note) := toNotify[i];
        var failure := if stop.Some? && stop.value.note == i then Some(stop.value.failure) else None;
        AnnounceNote(rule, key, note, now, failure);
        if failure != Some(Sending) {
          changed := changed || Announces(rule, note);
        }
        if failure.Some? {
          return changed, true, if failure.value.Sending? then i else i + 1, if failure.value.Saving? then i + 1 else i;
        }
      }
      assert toNotify[..|toNotify|] == toNotify;
      m, e := |toNotify|, |toNotify|;
    }

    /** The part of ApplyAsync under the lock: the three loops over the states. */
    method JudgeStates(rule: Rule, results: seq<Evaluation>, now: Time, active: bool)
      returns (changed: bool, toNotify: seq<(string, Note)>, ghost unseen: seq<string>, ghost settled: seq<string>)
      requires Distinct(results)
      modifies this`states
      ensures Ready(rule, old(states), results, unseen, settled, now, active)
      ensures Work(states, toNotify, changed) == Loops(rule, old(states), results, unseen, settled, now, active)
    {
      changed, toNotify := SeeResults(rule, results, now, active);
      var rest := InSomeOrder(KeysWithout(rule, states, results));
      KeysWithoutAre(rule, states, results);
      assert UnseenKeys(rule, states, results, rest);
      changed, toNotify := SettleUnseen(rule, rest, now, active, changed, toNotify);
      var ok := InSomeOrder(KeysOk(rule, states));
      KeysOkAre(rule, states);
      assert SettledKeys(rule, states, ok);
      changed := PruneSettled(rule, ok, now, changed, toNotify);
      unseen, settled := rest, ok;
    }

    /** ApplyAsync. */
    method Apply(rule: Rule, results: seq<Evaluation>, now: Time, active: bool, stop: Option<NoteStop>)
      returns (changed: bool, stopped: bool, ghost notes: seq<(string, Note)>, ghost marked: set<string>)
      requires Distinct(results)
      modifies this`states, this`events, this`filed
      ensures stop.None? ==> !stopped
      ensures !stopped ==> Passed(rule, old(states), results, now, active, states, notes, changed)
      ensures stopped ==> CutShort(rule, old(states), results, now, active, states, notes, marked, KeysIn(notes))
      ensures events == old(events) + EventsOf(rule.id, notes) && (IsUnsaved(stopped, stop) ==> notes != [])
      ensures filed == Filed(old(filed), old(events), events, !IsUnsaved(stopped, stop))
    {
      hide Ready, Loops, AnnounceAll, CutShort, Passed;
      ghost var unseen, settled, m, e;
      var toNotify;
      changed, toNotify, unseen, settled := JudgeStates(rule, results, now, active);
      ghost var w := Work(states, toNotify, changed);
      changed, stopped, m, e := AnnounceNotes(rule, toNotify, now, changed, stop);
      notes, marked := toNotify[..e], KeysIn(toNotify[..m]);
      PartlyAnnouncedIsCutShort(rule, old(states), results, unseen, settled, now, active, m, e);
      WholeIsPassed(rule, old(states), results, unseen, settled, now, active, w);
    }

    method RunRules(r: Round) returns (changed: bool, stopped: bool, ghost done: Done)
      requires IsDistinct(r)
      modifies this`states, this`events, this`filed
      ensures (stopped <==> done.Stopped?) && (r.stop.None? ==> !stopped)
      ensures stopped ==> r.stop.Some? && done.turn == r.stop.value.turn && HasStopped(r, done, old(Now()), Now())
      ensures !stopped ==> HasRun(r.turns, r.now, old(Now()), Now()) && (changed <==> !Agree(old(states), states))
    {
      changed := false;
      ghost var start := Now();
      for i := 0 to |r.turns|
        invariant changed <==> !Agree(start.states, states)
        invariant HasRun(r.turns[..i], r.now, start, Now())
      {
        var t := r.turns[i];
        ghost var before := Now();
        if t.rule.enabled && r.stop == Some(AtRule(i)) {
          StoppedBefore(r, i, start, before);
          return changed, true, Stopped(i, false, {}, {}, true);
        }
        if t.rule.enabled && t.results.Some? {
          var stop := NoteStopOf(r.stop, i);
          var c, s, notes, marked := Apply(t.rule, t.results.value, r.now, t.active, stop);
          if s {
            done := Stopped(i, true, marked, KeysIn(notes), !IsUnsaved(s, stop));
            StoppedIn(r, done, start, before, Now(), notes);
            return c, true, done;
          }
          PassFlagIsDisagreement(t.rule, before.states, t.results.value, r.now, t.active, states, notes, c);
          PassChanges(r.turns, i, r.now, start, before, Now(), notes, c);
          HasRunStep(r.turns, i, r.now, start, before, Now(), notes, c);
          changed := changed || c;
        } else {
          HasRunSkip(r.turns, i, r.now, start, before);
        }
      }
      assert r.turns[..|r.turns|] == r.turns;
      stopped, done := false, Whole;
    }

    method DropOrphans(turns: seq<Turn>) returns (changed: bool)
      modifies this`states
      ensures forall id :: Lookup(states, id) == if HasRule(turns, id.rule) then Lookup(old(states), id) else None
      ensures changed <==> states != old(states)
    {
      var orphans := set id | id in states && !HasRule(turns, id.rule);
      changed := orphans != {};
      states := states - orphans;
    }

    /**
     RunOnceAsync: every enabled rule that could be evaluated makes a pass; states without an enabled rule are dropped;
     what a restart must find again is stored. An exception may leave the round before that.
     */
    method RunOnce(r: Round) returns (ghost done: Done)
      requires IsDistinct(r)
      modifies this
      ensures Happened(Ran(r, done), old(Now()), Now())
      ensures done.Stopped? ==> r.stop.Some? && done.turn == r.stop.value.turn
    {
      ghost var start := Now();
      var changed, stopped;
      changed, stopped, done := RunRules(r);
      if stopped { return; }
      ghost var before := states;
      var dropped := DropOrphans(r.turns);
      RoundedIsHalf(r.turns, start.states, r.now);
      DropChanges(r.turns, r.now, start.states, before, states, dropped);
      if (changed || dropped) && r.saved {
        persisted := states;
      }
    }

    /** ExecuteAsync: one round after the other, also after one that an exception has left. */
    method Execute(rounds: seq<Round>) returns (ghost doings: seq<Doing>, ghost log: seq<Moment>)
      requires forall r :: r in rounds ==> IsDistinct(r)
      modifies this
      ensures |doings| == |rounds| && History(doings, log) && log[0] == old(Now()) && log[|rounds|] == Now()
      ensures forall i :: 0 <= i < |rounds| ==>
        doings[i].Ran? && doings[i].round == rounds[i] && (rounds[i].stop.None? ==> doings[i].done == Whole)
    {
      doings, log := [], [Now()];
      for i := 0 to |rounds|
        invariant |doings| == i && History(doings, log) && log[0] == old(Now()) && log[i] == Now()
        invariant forall j :: 0 <= j < i ==>
          doings[j].Ran? && doings[j].round == rounds[j] && (rounds[j].stop.None? ==> doings[j].done == Whole)
      {
        ghost var done := RunOnce(rounds[i]);
        doings, log := doings + [Ran(rounds[i], done)], log + [Now()];
      }
    }
  }

  /** The loops, and all their notes announced. */
  lemma WholeIsPassed(rule: Rule, states: States, results: seq<Evaluation>, unseen: seq<string>, settled: seq<string>,
                      now: Time, active: bool, w: Work)
    requires Ready(rule, states, results, unseen, settled, now, active)
    requires w == Loops(rule, states, results, unseen, settled, now, active)
    ensures var after := AnnounceAll(rule, w, w.notes[..|w.notes|], now);
      Passed(rule, states, results, now, active, after.states, w.notes[..|w.notes|], after.changed)
  {
    hide Ready, Loops, AnnounceAll, Passed;
    assert w.notes[..|w.notes|] == w.notes;
    AnnounceKeepsNotes(rule, w, w.notes, now);
    PassIsStep(rule, states, results, unseen, settled, now, active);
  }

  /** Where the pass of turn i stops, if it does. */
  function NoteStopOf(stop: Option<Stop>, i: nat): Option<NoteStop> {
    if stop.Some? && stop.value.AtNote? && stop.value.turn == i then Some(stop.value.at) else None
  }

  predicate IsRecorded(failure: Option<Failure>) {
    failure.None? || failure.value.Saving?
  }

  /** Whether the last note that was recorded could not be saved. */
  predicate IsUnsaved(stopped: bool, stop: Option<NoteStop>) {
    stopped && stop.Some? && stop.value.failure == Saving
  }

  lemma AnnounceNext(rule: Rule, w: Work, notes: seq<(string, Note)>, i: nat, now: Time)
    requires i < |notes|
    ensures AnnounceAll(rule, w, notes[..i + 1], now)
            == AnnounceOne(rule, AnnounceAll(rule, w, notes[..i], now), notes[i], now)
  {
    assert notes[..i + 1][..i] == notes[..i];
  }

  lemma EventsNext(base: seq<Event>, rule: string, notes: seq<(string, Note)>, i: nat)
    requires i < |notes|
    ensures base + EventsOf(rule, notes[..i]) + [Event(rule, notes[i].0, notes[i].1)]
            == base + EventsOf(rule, notes[..i + 1])
  {
    EventsOfOne(rule, notes, i);
  }

  /** A pass that changes something changes what no pass before it has touched. */
  lemma PassChanges(turns: seq<Turn>, i: nat, now: Time, start: Moment, before: Moment, after: Moment,
                    notes: seq<(string, Note)>, c: bool)
    requires DistinctRules(turns) && i < |turns| && turns[i].rule.enabled && turns[i].results.Some?
    requires HasRun(turns[..i], now, start, before)
    requires Passed(turns[i].rule, before.states, turns[i].results.value, now, turns[i].active, after.states, notes, c)
    requires c <==> !Agree(before.states, after.states)
    ensures !Agree(start.states, after.states) <==> !Agree(start.states, before.states) || c
  {
    if c {
      var id :| !SameStanding(Lookup(before.states, id), Lookup(after.states, id));
      UntouchedSoFar(turns[..i], start.states, now, id);
    } else {
      AgreeSymmetric(before.states, after.states);
    }
    if !c && Agree(start.states, after.states) {
      AgreeTransitive(start.states, after.states, before.states);
    } else if !c && Agree(start.states, before.states) {
      AgreeTransitive(start.states, before.states, after.states);
    } else if c && !Agree(start.states, before.states) {
      UnchangedStays(turns, i, now, start, before, after, notes, c);
    }
  }

  lemma UnchangedStays(turns: seq<Turn>, i: nat, now: Time, start: Moment, before: Moment, after: Moment,
                       notes: seq<(string, Note)>, c: bool)
    requires DistinctRules(turns) && i < |turns| && turns[i].rule.enabled && turns[i].results.Some?
    requires HasRun(turns[..i], now, start, before)
    requires Passed(turns[i].rule, before.states, turns[i].results.value, now, turns[i].active, after.states, notes, c)
    requires !Agree(start.states, before.states)
    ensures !Agree(start.states, after.states)
  {
    var id :| !SameStanding(Lookup(start.states, id), Lookup(before.states, id));
    if id.rule == turns[i].rule.id {
      UntouchedSoFar(turns[..i], start.states, now, id);
    }
  }

  /** Dropping a state changes what no pass has touched. */
  lemma DropChanges(turns: seq<Turn>, now: Time, start: States, before: States, after: States, dropped: bool)
    requires forall id :: Lookup(before, id) == HalfRounded(turns, start, now, id)
    requires forall id :: Lookup(after, id) == if HasRule(turns, id.rule) then Lookup(before, id) else None
    requires dropped <==> after != before
    ensures !Agree(start, after) <==> !Agree(start, before) || dropped
  {
    forall id: Id | !HasRule(turns, id.rule) ensures Lookup(before, id) == Lookup(start, id) {
      NotRounded(turns, start, now, id);
    }
    if dropped {
      assert exists id :: Lookup(after, id) != Lookup(before, id) by {
        if forall id :: Lookup(after, id) == Lookup(before, id) {
          SameStates(after, before);
        }
      }
      var id :| Lookup(after, id) != Lookup(before, id);
      assert !SameStanding(Lookup(start, id), Lookup(after, id));
    }
    if !Agree(start, before) {
      var id :| !SameStanding(Lookup(start, id), Lookup(before, id));
      assert !SameStanding(Lookup(start, id), Lookup(after, id));
    }
  }

  lemma SameStates(a: States, b: States)
    requires forall id :: Lookup(a, id) == Lookup(b, id)
    ensures a == b
  {
    forall id ensures id in a <==> id in b {
      assert Lookup(a, id) == Lookup(b, id);
    }
    forall id | id in a ensures a[id] == b[id] {
      assert Lookup(a, id) == Lookup(b, id);
    }
  }

  lemma {:induction false} NotRounded(turns: seq<Turn>, states: States, now: Time, id: Id)
    requires !HasRule(turns, id.rule)
    ensures HalfRounded(turns, states, now, id) == Lookup(states, id)
  {
    if turns != [] {
      assert turns == turns[..|turns| - 1] + [turns[|turns| - 1]];
      assert turns[|turns| - 1] in turns;
      NotRounded(turns[..|turns| - 1], states, now, id);
    }
  }

  /** An exception at the evaluation of a rule. */
  lemma StoppedBefore(r: Round, i: nat, start: Moment, before: Moment)
    requires i < |r.turns| && HasRun(r.turns[..i], r.now, start, before)
    ensures HasStopped(r, Stopped(i, false, {}, {}, true), start, before)
  {
  }

  /** An exception at a note of a rule. */
  lemma StoppedIn(r: Round, d: Done, start: Moment, before: Moment, after: Moment, notes: seq<(string, Note)>)
    requires d.Stopped? && d.begun && d.turn < |r.turns| && DistinctRules(r.turns)
    requires r.turns[d.turn].rule.enabled && r.turns[d.turn].results.Some?
    requires HasRun(r.turns[..d.turn], r.now, start, before) && after.persisted == before.persisted
    requires var t := r.turns[d.turn];
      && CutShort(t.rule, before.states, t.results.value, r.now, t.active, after.states, notes, d.marked, d.recorded)
      && after.events == before.events + EventsOf(t.rule.id, notes)
    requires after.filed == Filed(before.filed, before.events, after.events, d.saved) && (!d.saved ==> notes != [])
    ensures HasStopped(r, d, start, after)
  {
    var t := r.turns[d.turn];
    assert !d.saved ==> |EventsOf(t.rule.id, notes)| > 0;
    FiledTwice(start.filed, start.events, before.events, after.events, d.saved);
    forall id
      ensures Lookup(after.states, id) == StoppedState(r, d, start.states, id)
      ensures About(after.events, id) == About(start.events, id) + Listed(StoppedNote(r, d, start.states, id))
    {
      StoppedAt(r, d, start, before, after, notes, id);
    }
  }

  lemma StoppedAt(r: Round, d: Done, start: Moment, before: Moment, after: Moment, notes: seq<(string, Note)>, id: Id)
    requires d.Stopped? && d.begun && d.turn < |r.turns| && DistinctRules(r.turns) && r.turns[d.turn].results.Some?
    requires HasRun(r.turns[..d.turn], r.now, start, before)
    requires var t := r.turns[d.turn];
      && CutShort(t.rule, before.states, t.results.value, r.now, t.active, after.states, notes, d.marked, d.recorded)
      && after.events == before.events + EventsOf(t.rule.id, notes)
    ensures Lookup(after.states, id) == StoppedState(r, d, start.states, id)
    ensures About(after.events, id) == About(start.events, id) + Listed(StoppedNote(r, d, start.states, id))
  {
    var t := r.turns[d.turn];
    if id.rule == t.rule.id {
      assert id == Id(t.rule.id, id.key);
      UntouchedSoFar(r.turns[..d.turn], start.states, r.now, id);
      assert Lookup(before.states, id) == Lookup(start.states, id);
      RecordsNow(start.events, before.events, after.events, t.rule.id, notes, id);
    } else {
      RecordsNone(before.events, after.events, t.rule.id, notes, id);
    }
  }

  lemma AgreeSymmetric(a: States, b: States)
    requires Agree(a, b)
    ensures Agree(b, a)
  {
    forall id ensures SameStanding(Lookup(b, id), Lookup(a, id)) {
      assert SameStanding(Lookup(a, id), Lookup(b, id));
    }
  }

  lemma AgreeTransitive(a: States, b: States, c: States)
    requires Agree(a, b) && Agree(b, c)
    ensures Agree(a, c)
  {
    forall id ensures SameStanding(Lookup(a, id), Lookup(c, id)) {
      assert SameStanding(Lookup(a, id), Lookup(b, id)) && SameStanding(Lookup(b, id), Lookup(c, id));
    }
  }

  function KeysWithout(rule: Rule, states: States, results: seq<Evaluation>): set<string> {
    set id | id in states && id.rule == rule.id && ResultFor(results, id.key).None? :: id.key
  }

  lemma KeysWithoutAre(rule: Rule, states: States, results: seq<Evaluation>)
    ensures forall k ::
              k in KeysWithout(rule, states, results)
              <==> Id(rule.id, k) in states && ResultFor(results, k).None?
  {
    forall k | Id(rule.id, k) in states && ResultFor(results, k).None? ensures k in KeysWithout(rule, states, results) {
      assert Id(rule.id, k).key == k;
    }
  }

  function KeysOk(rule: Rule, states: States): set<string> {
    set id | id in states && id.rule == rule.id && states[id].status == Ok :: id.key
  }

  lemma KeysOkAre(rule: Rule, states: States)
    ensures forall k :: Id(rule.id, k) in states && states[Id(rule.id, k)].status == Ok ==> k in KeysOk(rule, states)
  {
    forall k | Id(rule.id, k) in states && states[Id(rule.id, k)].status == Ok ensures k in KeysOk(rule, states) {
      assert Id(rule.id, k).key == k;
    }
  }

  predicate HasRule(turns: seq<Turn>, rule: string) {
    exists t :: t in turns && t.rule.enabled && t.rule.id == rule
  }

  /** As Rounded, before the orphans are dropped. */
  function HalfRounded(turns: seq<Turn>, states: States, now: Time, id: Id): Option<State> {
    if turns == [] then Lookup(states, id)
    else
      var t := turns[|turns| - 1];
      if t.rule.id == id.rule && t.rule.enabled && t.results.Some?
      then Stepped(t.rule, states, t.results.value, now, t.active, id.key).state
      else HalfRounded(turns[..|turns| - 1], states, now, id)
  }

  lemma {:induction false} UntouchedSoFar(turns: seq<Turn>, states: States, now: Time, id: Id)
    requires forall t :: t in turns ==> t.rule.id != id.rule
    ensures HalfRounded(turns, states, now, id) == Lookup(states, id)
    ensures Rounded(turns, states, now, id) == None && Noted(turns, states, now, id) == None
  {
    if turns != [] {
      UntouchedSoFar(turns[..|turns| - 1], states, now, id);
    }
  }

  lemma HasRunStep(turns: seq<Turn>, i: nat, now: Time, start: Moment, before: Moment, after: Moment,
                   notes: seq<(string, Note)>, c: bool)
    requires DistinctRules(turns) && i < |turns| && turns[i].rule.enabled && turns[i].results.Some?
    requires HasRun(turns[..i], now, start, before)
    requires Passed(turns[i].rule, before.states, turns[i].results.value, now, turns[i].active, after.states, notes, c)
    requires after.events == before.events + EventsOf(turns[i].rule.id, notes) && after.persisted == before.persisted
    requires after.filed == Filed(before.filed, before.events, after.events, true)
    ensures HasRun(turns[..i + 1], now, start, after)
  {
    var t, rest := turns[i], turns[..i];
    assert turns[..i + 1] == rest + [t];
    FiledTwice(start.filed, start.events, before.events, after.events, true);
    forall id
      ensures Lookup(after.states, id) == HalfRounded(rest + [t], start.states, now, id)
      ensures About(after.events, id) == About(start.events, id) + Listed(Noted(rest + [t], start.states, now, id))
    {
      if id.rule == t.rule.id {
        UntouchedSoFar(rest, start.states, now, id);
        PassedAt(t, now, before.states, after.states, notes, c, id);
        RoundsNow(rest, t, start.states, before.states, now, id);
        RecordsNow(start.events, before.events, after.events, t.rule.id, notes, id);
      } else {
        RoundsBefore(rest, t, start.states, now, id);
        RecordsNone(before.events, after.events, t.rule.id, notes, id);
      }
    }
  }

  lemma RecordsNow(start: seq<Event>, before: seq<Event>, after: seq<Event>, rule: string, notes: seq<(string, Note)>,
      id: Id)
    requires after == before + EventsOf(rule, notes) && id.rule == rule
    requires About(before, id) == About(start, id) + Listed(None)
    ensures About(after, id) == About(start, id) + NotesOf(notes, id.key)
  {
    AboutMore(before, EventsOf(rule, notes), id);
    AboutNotes(rule, notes, id);
    assert About(start, id) + [] == About(start, id);
  }

  lemma RecordsNone(before: seq<Event>, after: seq<Event>, rule: string, notes: seq<(string, Note)>, id: Id)
    requires after == before + EventsOf(rule, notes) && id.rule != rule
    ensures About(after, id) == About(before, id)
  {
    AboutMore(before, EventsOf(rule, notes), id);
    AboutNotes(rule, notes, id);
    assert About(before, id) + [] == About(before, id);
  }

  lemma PassedAt(t: Turn, now: Time, before: States, after: States, notes: seq<(string, Note)>, c: bool, id: Id)
    requires t.results.Some? && id.rule == t.rule.id
    requires Passed(t.rule, before, t.results.value, now, t.active, after, notes, c)
    ensures var o := Stepped(t.rule, before, t.results.value, now, t.active, id.key);
      Lookup(after, id) == o.state && NotesOf(notes, id.key) == Listed(o.note)
  {
    assert id == Id(t.rule.id, id.key);
    var o := Stepped(t.rule, before, t.results.value, now, t.active, id.key);
    assert Lookup(after, Id(t.rule.id, id.key)) == o.state && NotesOf(notes, id.key) == Listed(o.note);
  }

  /** The turn of another rule is nothing to this key. */
  lemma RoundsBefore(rest: seq<Turn>, t: Turn, states: States, now: Time, id: Id)
    requires id.rule != t.rule.id
    ensures HalfRounded(rest + [t], states, now, id) == HalfRounded(rest, states, now, id)
    ensures Noted(rest + [t], states, now, id) == Noted(rest, states, now, id)
  {
    assert (rest + [t])[..|rest|] == rest;
  }

  lemma RoundsNow(rest: seq<Turn>, t: Turn, start: States, before: States, now: Time, id: Id)
    requires t.rule.enabled && t.results.Some? && id.rule == t.rule.id && Lookup(before, id) == Lookup(start, id)
    ensures var o := Stepped(t.rule, before, t.results.value, now, t.active, id.key);
      HalfRounded(rest + [t], start, now, id) == o.state && Noted(rest + [t], start, now, id) == o.note
  {
    assert id == Id(t.rule.id, id.key);
  }

  lemma HasRunSkip(turns: seq<Turn>, i: nat, now: Time, start: Moment, before: Moment)
    requires i < |turns| && !(turns[i].rule.enabled && turns[i].results.Some?)
    requires HasRun(turns[..i], now, start, before)
    ensures HasRun(turns[..i + 1], now, start, before)
  {
    assert turns[..i + 1][..i] == turns[..i];
  }

  lemma {:induction false} RoundedAt(turns: seq<Turn>, states: States, now: Time, id: Id)
    requires DistinctRules(turns)
    ensures Rounded(turns, states, now, id)
            == if HasRule(turns, id.rule) then HalfRounded(turns, states, now, id) else None
  {
    if turns != [] {
      var init, t := turns[..|turns| - 1], turns[|turns| - 1];
      assert turns == init + [t];
      RoundedAt(init, states, now, id);
      if t.rule.id == id.rule {
        UntouchedSoFar(init, states, now, id);
      }
    }
  }

  lemma RoundedIsHalf(turns: seq<Turn>, states: States, now: Time)
    requires DistinctRules(turns)
    ensures forall id ::
              Rounded(turns, states, now, id)
              == if HasRule(turns, id.rule) then HalfRounded(turns, states, now, id) else None
  {
    forall id
      ensures Rounded(turns, states, now, id)
              == if HasRule(turns, id.rule) then HalfRounded(turns, states, now, id) else None
    {
      RoundedAt(turns, states, now, id);
    }
  }
}
