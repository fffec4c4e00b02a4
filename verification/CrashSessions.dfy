/** Session markers: how an abrupt end of a process is noticed by the next one. */
module CrashSessions {

  // A run interleaves any number of sessions sharing a directory; a session may be killed between any two
  // steps. Moving and deleting a marker, and storing a report, are atomic, and each may fail; a marker is only
  // ever moved into place complete.

  /** A process instance: its identifier and start time. */
  type Session = nat

  /** ReportAbandonedSessions, file by file. */
  datatype Scan =
    | Looking(todo: set<Session>)
    | Failed(file: Session, todo: set<Session>)     // marker not read, about to be deleted
    | Judging(file: Session, todo: set<Session>)    // marker read, process not yet looked up
    | Reporting(file: Session, todo: set<Session>)  // found dead, report not yet stored
    | Erasing(file: Session, todo: set<Session>, stored: bool)  // report made, marker not yet deleted
    | Done

  datatype Handler = Quiet | Raised | Made(stored: bool) | Cleared

  datatype Shutdown = Open | TimerStopped | Deleting | Clean

  datatype Process = Process(
    alive: bool,
    scan: Scan,
    writes: nat,         // WriteMarker calls past the test of the crash flag and not yet moved
    wrote: bool,         // a marker was moved into place at least once
    handler: Handler,    // OnUnhandledException; the crash flag is set unless Quiet
    shutdown: Shutdown
  )

  /**
   Whether reading a marker that exists can fail, as it is another account's, or is being replaced; and whether
   storing a report can fail.
   */
  datatype Config = Config(readsFail: bool, storesFail: bool)

  datatype State = State(
    markers: set<Session>,
    abandoned: set<Session>,   // reported by a later session as ended abruptly
    crashed: set<Session>,     // reported by their own exception handler
    discarded: set<Session>,   // history: marker deleted unread, or unreported, and not written since
    sessions: map<Session, Process>
  )

  datatype Action =
    | Start(s: Session)
    | Skip(s: Session)
    | Fail(s: Session, f: Session)
    | Discard(s: Session, deleted: bool)
    | Read(s: Session, f: Session)
    | Judge(s: Session, exists_: bool)
    | Report(s: Session, stored: bool)
    | Erase(s: Session, deleted: bool)
    | EndScan(s: Session)
    | WriteBegin(s: Session)
    | WriteMove(s: Session)
    | WriteFails(s: Session)
    | Raise(s: Session)
    | StoreCrash(s: Session, stored: bool)
    | ClearMarker(s: Session, deleted: bool)
    | StopTimer(s: Session)
    | TestCrashed(s: Session)
    | CloseDelete(s: Session, deleted: bool)
    | End(s: Session)

  /** One process's step: `m` and `m'` are the markers, `q` and `q'` the process. */
  ghost predicate Local(c: Config, st: State, a: Action, q: Process, m': set<Session>, q': Process) {
    var m := st.markers;
    match a
    case Start(s) => false
    case Skip(s) =>
      && q.scan.Looking? && s in q.scan.todo
      && m' == m && q' == q.(scan := Looking(q.scan.todo - {s}))
    case Fail(s, f) =>
      // gone since the directory was listed, or not readable
      && q.scan.Looking? && f in q.scan.todo && f != s && (f !in m || c.readsFail)
      && m' == m && q' == q.(scan := Failed(f, q.scan.todo - {f}))
    case Discard(s, deleted) =>
      && q.scan.Failed? && m' == (if deleted then m - {q.scan.file} else m) && q' == q.(scan := Looking(q.scan.todo))
    case Read(s, f) =>
      && q.scan.Looking? && f in q.scan.todo && f != s && f in m
      && m' == m && q' == q.(scan := Judging(f, q.scan.todo - {f}))
    case Judge(s, exists_) =>
      // a live process is found; a dead one may be mistaken for another with the same identifier
      && q.scan.Judging? && (q.scan.file in st.sessions && st.sessions[q.scan.file].alive ==> exists_)
      && m' == m && q' == q.(scan := if exists_ then Looking(q.scan.todo) else Reporting(q.scan.file, q.scan.todo))
    case Report(s, stored) =>
      && q.scan.Reporting? && (stored || c.storesFail)
      && m' == m && q' == q.(scan := Erasing(q.scan.file, q.scan.todo, stored))
    case Erase(s, deleted) =>
      && q.scan.Erasing? && m' == (if deleted then m - {q.scan.file} else m) && q' == q.(scan := Looking(q.scan.todo))
    case EndScan(s) =>
      && q.scan.Looking? && q.scan.todo == {} && m' == m && q' == q.(scan := Done)
    case WriteBegin(s) =>
      // at start, then from the timer as long as it runs
      && q.scan.Done? && q.shutdown.Open? && q.handler.Quiet?
      && m' == m && q' == q.(writes := q.writes + 1)
    case WriteMove(s) =>
      && q.writes > 0 && m' == m + {s} && q' == q.(writes := q.writes - 1, wrote := true)
    case WriteFails(s) =>
      && q.writes > 0 && m' == m && q' == q.(writes := q.writes - 1)
    case Raise(s) =>
      && q.scan.Done? && q.handler.Quiet? && m' == m && q' == q.(handler := Raised)
    case StoreCrash(s, stored) =>
      && q.handler.Raised? && (stored || c.storesFail) && m' == m && q' == q.(handler := Made(stored))
    case ClearMarker(s, deleted) =>
      && q.handler.Made? && m' == (if deleted then m - {s} else m) && q' == q.(handler := Cleared)
    case StopTimer(s) =>
      && q.scan.Done? && q.shutdown.Open? && m' == m && q' == q.(shutdown := TimerStopped)
    case TestCrashed(s) =>
      && q.shutdown.TimerStopped? && q.handler.Quiet? && m' == m && q' == q.(shutdown := Deleting)
    case CloseDelete(s, deleted) =>
      && q.shutdown.Deleting? && m' == (if deleted then m - {s} else m) && q' == q.(shutdown := Clean)
    case End(s) =>
      m' == m && q' == q.(alive := false)
  }

  ghost predicate Step(c: Config, st: State, a: Action, st': State) {
    if a.Start? then
      && a.s !in st.sessions
      && st' == st.(sessions := st.sessions[a.s := Process(true, Looking(st.markers), 0, false, Quiet, Open)])
    else
      && a.s in st.sessions && a.s in st'.sessions && st.sessions[a.s].alive
      && Local(c, st, a, st.sessions[a.s], st'.markers, st'.sessions[a.s])
      && st'.sessions == st.sessions[a.s := st'.sessions[a.s]]
      && st'.abandoned == st.abandoned + (if a.Report? && a.stored then {st.sessions[a.s].scan.file} else {})
      && st'.crashed == st.crashed + (if a.StoreCrash? && a.stored then {a.s} else {})
      && st'.discarded == DiscardedAfter(st, a)
  }

  function DiscardedAfter(st: State, a: Action): set<Session>
    requires a.s in st.sessions
  {
    if a.WriteMove? then st.discarded - {a.s} else st.discarded + Unreported(st, a) * st.markers
  }

  /** The marker that a step deletes without having read it, or without its report. */
  function Unreported(st: State, a: Action): set<Session>
    requires a.s in st.sessions
  {
    var q := st.sessions[a.s];
    if a.Discard? && a.deleted && q.scan.Failed? then {q.scan.file}
    else if a.Erase? && a.deleted && q.scan.Erasing? && !q.scan.stored then {q.scan.file}
    else if a.ClearMarker? && a.deleted && q.handler == Made(false) then {a.s}
    else {}
  }

  ghost predicate Next(c: Config, st: State, st': State) {
    exists a :: Step(c, st, a, st')
  }

  ghost predicate Path(c: Config, path: seq<State>) {
    path != [] && forall i :: 0 <= i < |path| - 1 ==> Next(c, path[i], path[i + 1])
  }

  ghost predicate Run(c: Config, run: seq<State>) {
    Path(c, run) && run[0] == State({}, {}, {}, {}, map[])
  }

  // ------------------------------------------------------------------ what is kept

  predicate IsReported(st: State, s: Session) {
    s in st.abandoned || s in st.crashed
  }

  /** Noticed: the marker is on disk, or a report has been stored. */
  predicate Noticed(st: State, s: Session) {
    s in st.markers || IsReported(st, s)
  }

  /** Has written its marker, and has not shut down cleanly: its end must not pass unnoticed. */
  predicate IsOwed(st: State, s: Session) {
    s in st.sessions && st.sessions[s].wrote && !st.sessions[s].shutdown.Clean?
  }

  predicate ScanFits(st: State, s: Session, scan: Scan) {
    match scan
    case Looking(_) => true
    case Failed(_, _) => true
    case Judging(f, _) => f in st.sessions && f != s
    case Reporting(f, _) => f in st.sessions && !st.sessions[f].alive
    case Erasing(f, _, stored) => f in st.sessions && !st.sessions[f].alive && (stored ==> f in st.abandoned)
    case Done => true
  }

  predicate SessionFits(st: State, s: Session, q: Process) {
    && ScanFits(st, s, q.scan)
    && (q.wrote && !q.shutdown.Clean? ==> Noticed(st, s) || s in st.discarded)
    && (q.handler == Made(true) ==> s in st.crashed)
    && (q.writes > 0 || q.wrote || !q.shutdown.Open? || !q.handler.Quiet? ==> q.scan.Done?)
  }

  predicate Inv(st: State) {
    && (forall s :: s in st.markers ==> s in st.sessions)
    && st.discarded !! st.markers
    && (forall s :: s in st.abandoned ==> s in st.sessions && !st.sessions[s].alive)
    && (forall s :: s in st.sessions ==> SessionFits(st, s, st.sessions[s]))
  }

  /** What a step leaves alone: reports stay, the dead stay dead, and the scan of one session is no other's business. */
  lemma OthersFit(c: Config, st: State, a: Action, st': State, s: Session)
    requires Inv(st) && Step(c, st, a, st') && s in st.sessions && s != a.s
    ensures s in st'.sessions && SessionFits(st', s, st'.sessions[s])
  {
    assert SessionFits(st, s, st.sessions[s]);
    if a.s in st.sessions {
      assert SessionFits(st, a.s, st.sessions[a.s]);
    }
  }

  lemma StepKeeps(c: Config, st: State, a: Action, st': State)
    requires Inv(st) && Step(c, st, a, st')
    ensures Inv(st')
  {
    forall s | s in st'.sessions && s != a.s ensures SessionFits(st', s, st'.sessions[s]) {
      OthersFit(c, st, a, st', s);
    }
    if a.s in st.sessions {
      assert SessionFits(st, a.s, st.sessions[a.s]);
    }
    assert SessionFits(st', a.s, st'.sessions[a.s]);
  }

  lemma {:induction false} RunKeeps(c: Config, run: seq<State>, i: nat)
    requires Run(c, run) && i < |run|
    ensures Inv(run[i])
  {
    if i > 0 {
      RunKeeps(c, run, i - 1);
      assert Next(c, run[i - 1], run[i - 1 + 1]);
      var a :| Step(c, run[i - 1], a, run[i]);
      StepKeeps(c, run[i - 1], a, run[i]);
    }
  }

  lemma LiveSessionsAreNotReported(c: Config, run: seq<State>, i: nat, s: Session)
    requires Run(c, run) && i < |run| && s in run[i].sessions && run[i].sessions[s].alive
    ensures s !in run[i].abandoned
  {
    RunKeeps(c, run, i);
  }

  // ------------------------------------------------------------------ abrupt ends

  /**
   Killed at any step, a session that has written its marker and has not shut down cleanly is noticed exactly when it
   was reported or its marker was not deleted, unread or with no report stored, since the last write.
   */
  lemma NoticedExactlyWhen(c: Config, run: seq<State>, i: nat, s: Session)
    requires Run(c, run) && i < |run| && IsOwed(run[i], s)
    ensures Noticed(run[i], s) <==> s !in run[i].discarded || IsReported(run[i], s)
  {
    RunKeeps(c, run, i);
    assert SessionFits(run[i], s, run[i].sessions[s]);
  }

  ghost predicate EndsAreNoticed(run: seq<State>) {
    forall i, s :: 0 <= i < |run| && IsOwed(run[i], s) ==> Noticed(run[i], s)
  }

  /** In every run, at every moment, a session that wrote its marker and did not shut down cleanly is noticed. */
  ghost predicate AbruptEndsAreNoticed(c: Config) {
    forall run :: Run(c, run) ==> EndsAreNoticed(run)
  }

  /** Reported, or closed cleanly: nothing more is owed to it. */
  predicate IsSettled(st: State, f: Session) {
    f in st.sessions && (IsReported(st, f) || st.sessions[f].shutdown.Clean?)
  }

  /** A session whose marker was found has written it. */
  predicate TodoFits(st: State, scan: Scan) {
    scan.Done? || forall f :: f in scan.todo ==> f in st.sessions && st.sessions[f].wrote
  }

  predicate StoresDone(q: Process) {
    (q.scan.Erasing? ==> q.scan.stored) && (q.handler.Made? ==> q.handler.stored)
  }

  /** Only a session to which nothing is owed loses its marker unread, and all reports made are stored. */
  predicate DiscardsFit(st: State) {
    && (forall s :: s in st.markers ==> s in st.sessions && st.sessions[s].wrote)
    && (forall s :: s in st.discarded ==> IsSettled(st, s))
    && (forall r :: r in st.sessions ==> TodoFits(st, st.sessions[r].scan))
    && (forall r :: r in st.sessions && st.sessions[r].scan.Failed? ==> IsSettled(st, st.sessions[r].scan.file))
    && (forall r :: r in st.sessions ==> StoresDone(st.sessions[r]))
  }

  lemma SettledStays(c: Config, st: State, a: Action, st': State, f: Session)
    requires IsSettled(st, f) && Step(c, st, a, st')
    ensures IsSettled(st', f)
  {
  }

  lemma WroteStays(c: Config, st: State, a: Action, st': State, f: Session)
    requires f in st.sessions && st.sessions[f].wrote && Step(c, st, a, st')
    ensures f in st'.sessions && st'.sessions[f].wrote
  {
  }

  lemma StepKeepsTodo(c: Config, st: State, a: Action, st': State, r: Session, f: Session)
    requires DiscardsFit(st) && Step(c, st, a, st') && r in st'.sessions
    requires !st'.sessions[r].scan.Done? && f in st'.sessions[r].scan.todo
    ensures f in st'.sessions && st'.sessions[f].wrote
  {
    if r in st.sessions {
      assert TodoFits(st, st.sessions[r].scan);
    }
    WroteStays(c, st, a, st', f);
  }

  /** Without failing reads, a marker that could not be read is one that its session no longer needs. */
  lemma StepKeepsFailed(c: Config, st: State, a: Action, st': State, r: Session)
    requires !c.readsFail && !c.storesFail && Inv(st) && DiscardsFit(st) && Step(c, st, a, st')
    requires r in st'.sessions && st'.sessions[r].scan.Failed?
    ensures IsSettled(st', st'.sessions[r].scan.file)
  {
    var f := st'.sessions[r].scan.file;
    if r == a.s && a.Fail? {
      assert TodoFits(st, st.sessions[r].scan) && SessionFits(st, f, st.sessions[f]);
      if f in st.discarded {
        assert IsSettled(st, f);
      }
    }
    SettledStays(c, st, a, st', f);
  }

  lemma StepKeepsDiscarded(c: Config, st: State, a: Action, st': State, s: Session)
    requires !c.readsFail && !c.storesFail && Inv(st) && DiscardsFit(st) && Step(c, st, a, st') && s in st'.discarded
    ensures IsSettled(st', s)
  {
    SettledStays(c, st, a, st', s);
  }

  lemma StepKeepsStores(c: Config, st: State, a: Action, st': State, r: Session)
    requires !c.storesFail && DiscardsFit(st) && Step(c, st, a, st') && r in st'.sessions
    ensures StoresDone(st'.sessions[r])
  {
  }

  lemma StepKeepsDiscards(c: Config, st: State, a: Action, st': State)
    requires !c.readsFail && !c.storesFail && Inv(st) && DiscardsFit(st) && Step(c, st, a, st')
    ensures DiscardsFit(st')
  {
    forall s | s in st'.discarded ensures IsSettled(st', s) {
      StepKeepsDiscarded(c, st, a, st', s);
    }
    forall r | r in st'.sessions ensures TodoFits(st', st'.sessions[r].scan) && StoresDone(st'.sessions[r]) {
      forall f | !st'.sessions[r].scan.Done? && f in st'.sessions[r].scan.todo
        ensures f in st'.sessions && st'.sessions[f].wrote
      {
        StepKeepsTodo(c, st, a, st', r, f);
      }
      StepKeepsStores(c, st, a, st', r);
    }
    forall r | r in st'.sessions && st'.sessions[r].scan.Failed? ensures IsSettled(st', st'.sessions[r].scan.file) {
      StepKeepsFailed(c, st, a, st', r);
    }
  }

  lemma {:induction false} RunKeepsDiscards(c: Config, run: seq<State>, i: nat)
    requires !c.readsFail && !c.storesFail && Run(c, run) && i < |run|
    ensures DiscardsFit(run[i])
  {
    if i > 0 {
      RunKeepsDiscards(c, run, i - 1);
      RunKeeps(c, run, i - 1);
      assert Next(c, run[i - 1], run[i - 1 + 1]);
      var a :| Step(c, run[i - 1], a, run[i]);
      StepKeepsDiscards(c, run[i - 1], a, run[i]);
    }
  }

  const BEGUN := Process(true, Looking({}), 0, false, Quiet, Open)

  const WRITTEN := BEGUN.(scan := Done, wrote := true)

  lemma MarkerIsWritten(c: Config) returns (run: seq<State>)
    ensures Run(c, run) && run[|run| - 1] == State({0}, {}, {}, {}, map[0 := WRITTEN])
  {
    run := [State({}, {}, {}, {}, map[])];
    run := Then(c, run, Start(0), State({}, {}, {}, {}, map[0 := BEGUN]));
    run := Then(c, run, EndScan(0), State({}, {}, {}, {}, map[0 := BEGUN.(scan := Done)]));
    run := Then(c, run, WriteBegin(0), State({}, {}, {}, {}, map[0 := BEGUN.(scan := Done, writes := 1)]));
    run := Then(c, run, WriteMove(0), State({0}, {}, {}, {}, map[0 := WRITTEN]));
  }

  /** A session starts and writes its marker; the next one cannot read it, and deletes it. */
  lemma MarkerCanBeLost(c: Config) returns (run: seq<State>)
    requires c.readsFail
    ensures Run(c, run) && !EndsAreNoticed(run)
  {
    var later := BEGUN.(scan := Looking({0}));
    assert later.scan.todo - {0} == {};
    run := MarkerIsWritten(c);
    run := Then(c, run, Start(1), State({0}, {}, {}, {}, map[0 := WRITTEN, 1 := later]));
    run := Then(c, run, Fail(1, 0), State({0}, {}, {}, {}, map[0 := WRITTEN, 1 := later.(scan := Failed(0, {}))]));
    run := Then(c, run, Discard(1, true), State({}, {}, {}, {0}, map[0 := WRITTEN, 1 := BEGUN]));
    assert IsOwed(run[|run| - 1], 0) && !Noticed(run[|run| - 1], 0);
  }

  /** A session raises an exception that it cannot report, and deletes its marker. */
  lemma ReportCanBeLost(c: Config) returns (run: seq<State>)
    requires c.storesFail
    ensures Run(c, run) && !EndsAreNoticed(run)
  {
    run := MarkerIsWritten(c);
    run := Then(c, run, Raise(0), State({0}, {}, {}, {}, map[0 := WRITTEN.(handler := Raised)]));
    run := Then(c, run, StoreCrash(0, false), State({0}, {}, {}, {}, map[0 := WRITTEN.(handler := Made(false))]));
    run := Then(c, run, ClearMarker(0, true), State({}, {}, {}, {0}, map[0 := WRITTEN.(handler := Cleared)]));
    assert IsOwed(run[|run| - 1], 0) && !Noticed(run[|run| - 1], 0);
  }

  lemma Then(c: Config, path: seq<State>, a: Action, st: State) returns (longer: seq<State>)
    requires Path(c, path) && Step(c, path[|path| - 1], a, st)
    ensures Path(c, longer) && longer == path + [st]
  {
    PathExtends(c, path, a, st);
    longer := path + [st];
  }

  /** Abrupt ends are noticed in every run exactly when reading a marker and storing a report never fail. */
  lemma AbruptEndsAreNoticedExactlyWhen(c: Config)
    ensures AbruptEndsAreNoticed(c) <==> !c.readsFail && !c.storesFail
  {
    if c.readsFail {
      var run := MarkerCanBeLost(c);
    } else if c.storesFail {
      var run := ReportCanBeLost(c);
    } else {
      forall run: seq<State> | Run(c, run) ensures EndsAreNoticed(run) {
        forall i, s | 0 <= i < |run| && IsOwed(run[i], s) ensures Noticed(run[i], s) {
          RunKeepsDiscards(c, run, i);
          NoticedExactlyWhen(c, run, i, s);
        }
      }
    }
  }

  // ------------------------------------------------------------------ clean ends

  predicate CanBeReportedBy(path: seq<State>, st: State, s: Session) {
    path != [] && path[0] == st && s in path[|path| - 1].abandoned
  }

  /** Some continuation of the run reports the session as ended abruptly. */
  ghost predicate CanBeReported(c: Config, st: State, s: Session) {
    exists path :: Path(c, path) && CanBeReportedBy(path, st, s)
  }

  ghost predicate IsJudging(st: State, r: Session, s: Session) {
    r in st.sessions && st.sessions[r].alive && st.sessions[r].scan.Judging? && st.sessions[r].scan.file == s
  }

  /**
   The marker is still there, or a write of it is under way, or another session has read it and not yet looked for
   the process.
   */
  ghost predicate Exposed(st: State, s: Session)
    requires s in st.sessions
  {
    s in st.markers || st.sessions[s].writes > 0 || exists r :: IsJudging(st, r, s)
  }

  /** Nothing is left that could report s: no marker, no write, no one who has read the marker. */
  ghost predicate Forgotten(st: State, s: Session) {
    && s in st.sessions && s !in st.markers && s !in st.abandoned
    && st.sessions[s].writes == 0 && !st.sessions[s].shutdown.Open?
    && forall r :: r in st.sessions && st.sessions[r].alive ==>
         !((st.sessions[r].scan.Judging? || st.sessions[r].scan.Reporting?) && st.sessions[r].scan.file == s)
  }

  lemma ForgottenStays(c: Config, st: State, a: Action, st': State, s: Session)
    requires Forgotten(st, s) && Step(c, st, a, st')
    ensures Forgotten(st', s)
  {
  }

  lemma {:induction false} ForgottenForGood(c: Config, path: seq<State>, s: Session)
    requires Path(c, path) && Forgotten(path[0], s)
    ensures Forgotten(path[|path| - 1], s)
    decreases |path|
  {
    if |path| > 1 {
      var last := |path| - 1;
      var init := path[..last];
      forall i | 0 <= i < |init| - 1 ensures Next(c, init[i], init[i + 1]) {
        assert Next(c, path[i], path[i + 1]);
      }
      ForgottenForGood(c, init, s);
      assert Next(c, path[last - 1], path[last - 1 + 1]);
      var a :| Step(c, path[last - 1], a, path[last]);
      ForgottenStays(c, path[last - 1], a, path[last], s);
    }
  }

  lemma PathExtends(c: Config, path: seq<State>, a: Action, st: State)
    requires Path(c, path) && Step(c, path[|path| - 1], a, st)
    ensures Path(c, path + [st])
  {
    var path' := path + [st];
    forall i | 0 <= i < |path'| - 1 ensures Next(c, path'[i], path'[i + 1]) {
      if i < |path| - 1 {
        assert Next(c, path[i], path[i + 1]);
      } else {
        assert Step(c, path'[i], a, path'[i + 1]);
      }
    }
  }

  /** A session that has read the marker of s looks for the process after its end. */
  lemma JudgedAfterItsEnd(c: Config, path: seq<State>, r: Session, s: Session) returns (longer: seq<State>)
    requires Path(c, path) && s in path[|path| - 1].sessions && r != s
    requires IsJudging(path[|path| - 1], r, s)
    ensures Path(c, longer) && longer[0] == path[0] && s in longer[|longer| - 1].abandoned
  {
    var st := path[|path| - 1];
    longer := path;
    if st.sessions[s].alive {
      var ended := st.(sessions := st.sessions[s := st.sessions[s].(alive := false)]);
      PathExtends(c, longer, End(s), ended);
      longer := longer + [ended];
      st := ended;
    }
    var q := st.sessions[r];
    var judged := st.(sessions := st.sessions[r := q.(scan := Reporting(s, q.scan.todo))]);
    PathExtends(c, longer, Judge(r, false), judged);
    longer := longer + [judged];
    var reported := judged.(
      sessions := judged.sessions[r := q.(scan := Erasing(s, q.scan.todo, true))], abandoned := judged.abandoned + {s});
    PathExtends(c, longer, Report(r, true), reported);
    longer := longer + [reported];
  }

  function Fresh(used: set<Session>): (n: Session)
    ensures n !in used && forall s :: s in used ==> s < n
  {
    if used == {} then 0
    else
      FreshExists(used);
      var n :| n in used && forall s :: s in used ==> s <= n;
      n + 1
  }

  lemma {:induction false} FreshExists(used: set<Session>)
    requires used != {}
    ensures exists n :: n in used && forall s :: s in used ==> s <= n
  {
    var n :| n in used;
    var rest := used - {n};
    if rest != {} {
      FreshExists(rest);
      var m :| m in rest && forall s :: s in rest ==> s <= m;
      var top := if m < n then n else m;
      assert forall s :: s in used ==> s == n || s in rest;
      assert top in used && forall s :: s in used ==> s <= top;
    } else {
      assert used == {n};
    }
  }

  /** The next session finds the marker. */
  lemma MarkerIsFound(c: Config, path: seq<State>, s: Session) returns (longer: seq<State>)
    requires Path(c, path) && s in path[|path| - 1].sessions && s in path[|path| - 1].markers
    ensures Path(c, longer) && longer[0] == path[0] && s in longer[|longer| - 1].abandoned
  {
    var st := path[|path| - 1];
    var r := Fresh(st.sessions.Keys);
    var looking := Process(true, Looking(st.markers), 0, false, Quiet, Open);
    longer := Then(c, path, Start(r), st.(sessions := st.sessions[r := looking]));
    var judging := looking.(scan := Judging(s, st.markers - {s}));
    longer := Then(c, longer, Read(r, s), st.(sessions := st.sessions[r := looking][r := judging]));
    longer := JudgedAfterItsEnd(c, longer, r, s);
  }

  /** A write that lands after the deletion leaves a marker for the next session to find. */
  lemma LateWriteIsFound(c: Config, st: State, s: Session) returns (path: seq<State>)
    requires s in st.sessions && st.sessions[s].alive && st.sessions[s].writes > 0
    ensures Path(c, path) && path[0] == st && s in path[|path| - 1].abandoned
  {
    var q := st.sessions[s];
    var q' := q.(writes := q.writes - 1, wrote := true);
    var moved := st.(markers := st.markers + {s}, sessions := st.sessions[s := q']);
    path := Then(c, [st], WriteMove(s), moved.(discarded := st.discarded - {s}));
    path := MarkerIsFound(c, path, s);
  }

  lemma ExposedCanBeReported(c: Config, st: State, s: Session)
    requires Inv(st) && s in st.sessions && st.sessions[s].alive && Exposed(st, s)
    ensures CanBeReported(c, st, s)
  {
    var path: seq<State>;
    if s in st.markers {
      path := MarkerIsFound(c, [st], s);
    } else if st.sessions[s].writes > 0 {
      path := LateWriteIsFound(c, st, s);
    } else {
      var r :| IsJudging(st, r, s);
      assert SessionFits(st, r, st.sessions[r]);
      path := JudgedAfterItsEnd(c, [st], r, s);
    }
    assert CanBeReportedBy(path, st, s);
  }

  lemma UnexposedIsForgotten(st: State, s: Session)
    requires Inv(st) && s in st.sessions && st.sessions[s].alive && !st.sessions[s].shutdown.Open? && !Exposed(st, s)
    ensures Forgotten(st, s)
  {
    forall r | r in st.sessions && st.sessions[r].alive
      ensures !((st.sessions[r].scan.Judging? || st.sessions[r].scan.Reporting?) && st.sessions[r].scan.file == s)
    {
      assert !IsJudging(st, r, s) && SessionFits(st, r, st.sessions[r]);
    }
  }

  lemma ForgottenCannotBeReported(c: Config, st: State, s: Session)
    requires Forgotten(st, s)
    ensures !CanBeReported(c, st, s)
  {
    forall path | Path(c, path) && CanBeReportedBy(path, st, s) ensures false {
      ForgottenForGood(c, path, s);
    }
  }

  /**
   A session that has just closed, its marker deleted or not, can still be reported as ended abruptly exactly when
   it is exposed at that moment; otherwise no continuation ever reports it.
   */
  lemma CleanEndsAreReportedExactlyWhen(c: Config, run: seq<State>, s: Session, deleted: bool)
    requires Run(c, run) && |run| > 1 && Step(c, run[|run| - 2], CloseDelete(s, deleted), run[|run| - 1])
    ensures CanBeReported(c, run[|run| - 1], s) <==> Exposed(run[|run| - 1], s)
  {
    hide Exposed, CanBeReported, Forgotten, Inv;
    var st := run[|run| - 1];
    RunKeeps(c, run, |run| - 1);
    if Exposed(st, s) {
      ExposedCanBeReported(c, st, s);
    } else {
      UnexposedIsForgotten(st, s);
      ForgottenCannotBeReported(c, st, s);
    }
  }
}
