/** Store-and-forward by any number of processes that share a directory. */
module Delivery {

  // The state is what survives a kill (the world: files, and what the server did) and what does not (each
  // process's callers and drain). Steps are single file-system operations and single network events, so a
  // run may interleave them, and kill any process, in every possible way. Moving and deleting a file are
  // atomic; each file operation may fail.

  type Batch = nat
  type Pid = nat
  type Tid = nat

  /** The parts of an outbox file name that make it unique: clock, process and the process's counter. */
  datatype Name = Name(ticks: nat, pid: Pid, serial: nat)

  datatype Holder = Unlocked | HeldBy(pid: Pid)

  datatype File = File(batch: Batch, holder: Holder)

  /** A thread inside Deliver or Store. */
  datatype Caller =
    | Idle
    | Deciding(batch: Batch)                  // before the test of the circuit and of HasPending
    | Sending(batch: Batch, taken: bool)      // request in flight; taken: the server accepted it
    | Storing(batch: Batch)                   // before a name is drawn
    | Written(batch: Batch, name: Name)       // name drawn, temporary file not yet in place
    | Moved                                   // file in place, directory not yet listed by EnforceLimit
    | Trimming(todo: seq<Name>, total: int)   // EnforceLimit over its snapshot of the directory

  /** DrainOutboxAsync; the drain lock admits one per process. */
  datatype Drain =
    | Free
    | Listing(todo: seq<Name>)
    | Claimed(name: Name, todo: seq<Name>)
    | Posting(name: Name, taken: bool, todo: seq<Name>)
    | Answered(name: Name, todo: seq<Name>)   // marked complete, stream still open
    | Released(name: Name, todo: seq<Name>)   // stream closed, file not yet deleted

  datatype Process = Process(callers: map<Tid, Caller>, drain: Drain)

  datatype Config = Config(size: Batch -> nat, maxBytes: int, precedes: (Name, Name) -> bool)

  datatype World = World(
    files: map<Name, File>,
    counters: map<Pid, nat>,       // the file counter of every process ever started
    handed: set<Batch>,
    accepted: set<Batch>,          // taken by the server
    rejected: set<Batch>,          // refused with 400, 413 or 415
    evicted: set<Batch>,           // deleted by EnforceLimit
    died: set<Batch>,              // in hand when their process was killed
    givenUp: set<Batch>,           // with a warning, as the file could not be written, or with an exception
    named: map<Name, Batch>        // history: every name an outbox file ever had
  )

  datatype State = State(world: World, live: map<Pid, Process>)

  datatype CallerAction =
    | Hand(b: Batch)
    | HandToStore(b: Batch)
    | DecideSend
    | DecideStore
    | ServerTakes
    | ReplyOk
    | ReplyDrop
    | ReplyRetry
    | Throw
    | Write(ticks: nat)
    | Move
    | GiveUp
    | List
    | Trim(deleted: bool)
    | TrimDone
    | TrimFails

  datatype DrainAction =
    | Begin
    | Skip
    | Claim
    | Post
    | Taken
    | AnswerOk
    | AnswerDrop
    | Stop
    | Release
    | Delete(deleted: bool)
    | End

  // ------------------------------------------------------------------ status codes

  datatype SendResult = Ok | Retry | Drop

  /** What a response means: only a message refused for its content is dropped. */
  function Classify(code: int): (r: SendResult)
    ensures r == Drop <==> code in {400, 413, 415}
    ensures r == Ok <==> code / 100 == 2
  {
    if 200 <= code < 300 then Ok
    else if code == 400 || code == 413 || code == 415 then Drop
    else Retry
  }

  // ------------------------------------------------------------------ steps

  /** `todo` lists the directory once, in name order. */
  ghost predicate Snapshot(c: Config, files: map<Name, File>, todo: seq<Name>) {
    && (forall n :: n in todo <==> n in files)
    && (forall i, j :: 0 <= i < j < |todo| ==> todo[i] != todo[j] && c.precedes(todo[i], todo[j]))
  }

  function Bytes(c: Config, named: map<Name, Batch>, todo: seq<Name>): int {
    if todo == [] then 0
    else (if todo[0] in named then c.size(named[todo[0]]) else 0) + Bytes(c, named, todo[1..])
  }

  /** The system closes every stream of process `p`. */
  function Unlock(files: map<Name, File>, p: Pid): map<Name, File> {
    map n | n in files :: if files[n].holder == HeldBy(p) then files[n].(holder := Unlocked) else files[n]
  }

  ghost predicate CallerStep(c: Config, p: Pid, w: World, k: Caller, a: CallerAction, w': World, k': Caller) {
    match a
    case Hand(b) =>
      && k == Idle && b !in w.handed
      && k' == Deciding(b) && w' == w.(handed := w.handed + {b})
    case HandToStore(b) =>
      // a crash report goes straight to Store
      && k == Idle && b !in w.handed
      && k' == Storing(b) && w' == w.(handed := w.handed + {b})
    case DecideSend =>
      k.Deciding? && k' == Sending(k.batch, false) && w' == w
    case DecideStore =>
      k.Deciding? && k' == Storing(k.batch) && w' == w
    case ServerTakes =>
      k.Sending? && k' == Sending(k.batch, true) && w' == w.(accepted := w.accepted + {k.batch})
    case ReplyOk =>
      k.Sending? && k.taken && k' == Idle && w' == w
    case ReplyDrop =>
      k.Sending? && k' == Idle && w' == w.(rejected := w.rejected + {k.batch})
    case ReplyRetry =>
      // an error status, or a lost answer: the server may have taken the batch all the same
      k.Sending? && k' == Storing(k.batch) && w' == w
    case Throw =>
      // an exception that is not caught: the directory cannot be listed, the request cannot be made
      (k.Deciding? || k.Sending? || k.Storing?) && k' == Idle && w' == w.(givenUp := w.givenUp + {k.batch})
    case Write(ticks) =>
      && k.Storing? && p in w.counters
      && k' == Written(k.batch, Name(ticks, p, w.counters[p] + 1))
      && w' == w.(counters := w.counters[p := w.counters[p] + 1])
    case Move =>
      && k.Written? && k' == Moved
      && w' == w.(files := w.files[k.name := File(k.batch, Unlocked)], named := w.named[k.name := k.batch])
    case GiveUp =>
      // writing or moving failed
      k.Written? && k' == Idle && w' == w.(givenUp := w.givenUp + {k.batch})
    case List =>
      && k == Moved && w' == w
      && k'.Trimming? && Snapshot(c, w.files, k'.todo) && k'.total == Bytes(c, w.named, k'.todo)
    case Trim(deleted) =>
      // the deletion of a file in use may fail: its bytes are counted off all the same
      && k.Trimming? && k.todo != [] && k.total > c.maxBytes
      && var n := k.todo[0];
      && n in w.named
      && k' == Trimming(k.todo[1..], k.total - c.size(w.named[n]))
      && w' == if deleted && n in w.files
               then w.(files := w.files - {n}, evicted := w.evicted + {w.files[n].batch})
               else w
    case TrimDone =>
      k.Trimming? && (k.todo == [] || k.total <= c.maxBytes) && k' == Idle && w' == w
    case TrimFails =>
      (k == Moved || k.Trimming?) && k' == Idle && w' == w
  }

  ghost predicate DrainStep(c: Config, p: Pid, w: World, d: Drain, a: DrainAction, w': World, d': Drain) {
    match a
    case Begin =>
      d == Free && d'.Listing? && Snapshot(c, w.files, d'.todo) && w' == w
    case Skip =>
      // TryClaim failed: gone, in another process's hands, or not readable
      d.Listing? && d.todo != [] && d' == Listing(d.todo[1..]) && w' == w
    case Claim =>
      && d.Listing? && d.todo != []
      && var n := d.todo[0];
      && n in w.files && w.files[n].holder == Unlocked
      && d' == Claimed(n, d.todo[1..])
      && w' == w.(files := w.files[n := w.files[n].(holder := HeldBy(p))])
    case Post =>
      d.Claimed? && d' == Posting(d.name, false, d.todo) && w' == w
    case Taken =>
      && d.Posting? && d.name in w.named
      && d' == Posting(d.name, true, d.todo) && w' == w.(accepted := w.accepted + {w.named[d.name]})
    case AnswerOk =>
      d.Posting? && d.taken && d' == Answered(d.name, d.todo) && w' == w
    case AnswerDrop =>
      && d.Posting? && d.name in w.named
      && d' == Answered(d.name, d.todo) && w' == w.(rejected := w.rejected + {w.named[d.name]})
    case Stop =>
      // Retry or cancellation: the claim is disposed without being complete
      (d.Listing? || d.Claimed? || d.Posting?) && d' == Free && w' == w.(files := Unlock(w.files, p))
    case Release =>
      d.Answered? && d' == Released(d.name, d.todo) && w' == w.(files := Unlock(w.files, p))
    case Delete(deleted) =>
      && d.Released? && d' == Listing(d.todo)
      && w' == if deleted then w.(files := w.files - {d.name}) else w
    case End =>
      d.Listing? && d.todo == [] && d' == Free && w' == w
  }

  /** The batch a caller holds in memory only. */
  function InHandOf(k: Caller): set<Batch> {
    match k
    case Deciding(b) => {b}
    case Sending(b, _) => {b}
    case Storing(b) => {b}
    case Written(b, _) => {b}
    case _ => {}
  }

  function InHandBy(q: Process): set<Batch> {
    set t, b | t in q.callers && b in InHandOf(q.callers[t]) :: b
  }

  function CallerOf(q: Process, t: Tid): Caller {
    if t in q.callers then q.callers[t] else Idle
  }

  datatype Action =
    | Start(p: Pid)
    | Kill(p: Pid)
    | Calls(p: Pid, t: Tid, call: CallerAction)
    | Drains(p: Pid, drain: DrainAction)

  ghost predicate Step(c: Config, s: State, a: Action, s': State) {
    match a
    case Start(p) =>
      // a process instance is new: its counter starts at 0
      && p !in s.world.counters
      && s' == State(s.world.(counters := s.world.counters[p := 0]), s.live[p := Process(map[], Free)])
    case Kill(p) =>
      // the system closes the process's streams; its memory is gone, its files stay
      && p in s.live
      && s' == State(s.world.(files := Unlock(s.world.files, p), died := s.world.died + InHandBy(s.live[p])),
                     s.live - {p})
    case Calls(p, t, call) =>
      && p in s.live && p in s'.live
      && s'.live == s.live[p := s.live[p].(callers := s.live[p].callers[t := CallerOf(s'.live[p], t)])]
      && CallerStep(c, p, s.world, CallerOf(s.live[p], t), call, s'.world, CallerOf(s'.live[p], t))
    case Drains(p, drain) =>
      && p in s.live && p in s'.live
      && s'.live == s.live[p := s.live[p].(drain := s'.live[p].drain)]
      && DrainStep(c, p, s.world, s.live[p].drain, drain, s'.world, s'.live[p].drain)
  }

  ghost predicate Init(s: State) {
    s == State(World(map[], map[], {}, {}, {}, {}, {}, {}, map[]), map[])
  }

  ghost predicate Next(c: Config, s: State, s': State) {
    exists a :: Step(c, s, a, s')
  }

  ghost predicate Run(c: Config, run: seq<State>) {
    && run != [] && Init(run[0])
    && forall i :: 0 <= i < |run| - 1 ==> Next(c, run[i], run[i + 1])
  }

  // ------------------------------------------------------------------ what is kept

  predicate InHand(s: State, b: Batch) {
    exists p :: p in s.live && b in InHandBy(s.live[p])
  }

  predicate OnDisk(w: World, b: Batch) {
    exists n :: n in w.files && w.files[n].batch == b
  }

  /** The batch left the system the way it is meant to: the server had its say, or the size limit. */
  predicate Settled(w: World, b: Batch) {
    b in w.accepted || b in w.rejected || b in w.evicted
  }

  ghost predicate Covered(s: State, b: Batch) {
    InHand(s, b) || OnDisk(s.world, b) || Settled(s.world, b) || b in s.world.died || b in s.world.givenUp
  }

  ghost predicate NamesFit(w: World) {
    && (forall n :: n in w.files ==> n in w.named && w.named[n] == w.files[n].batch)
    && (forall n :: n in w.named ==> n.pid in w.counters && n.serial <= w.counters[n.pid])
  }

  /** A name drawn by a caller is nobody else's, now or earlier. */
  ghost predicate CallerFits(w: World, p: Pid, k: Caller) {
    && (k.Written? ==> k.name !in w.named && k.name.pid == p && p in w.counters && k.name.serial <= w.counters[p])
    && (k.Sending? && k.taken ==> k.batch in w.accepted)
    && (k.Trimming? ==> forall n :: n in k.todo ==> n in w.named)
  }

  ghost predicate DrainFits(w: World, d: Drain) {
    && (!d.Free? && !d.Listing? ==> d.name in w.named)
    && (d.Posting? && d.taken ==> w.named[d.name] in w.accepted)
    && (d.Answered? || d.Released? ==> w.named[d.name] in w.accepted || w.named[d.name] in w.rejected)
  }

  predicate Holds(d: Drain, n: Name) {
    (d.Claimed? || d.Posting? || d.Answered?) && d.name == n
  }

  ghost predicate SerialsDiffer(q: Process) {
    forall t, u :: t != u && CallerOf(q, t).Written? && CallerOf(q, u).Written?
      ==> CallerOf(q, t).name.serial != CallerOf(q, u).name.serial
  }

  ghost predicate ProcessFits(w: World, p: Pid, q: Process) {
    && p in w.counters
    && DrainFits(w, q.drain)
    && (forall t :: CallerFits(w, p, CallerOf(q, t)))
    && SerialsDiffer(q)
    && (forall n :: Holds(q.drain, n) && n in w.files ==> w.files[n].holder == HeldBy(p))
  }

  ghost predicate LocksFit(s: State) {
    forall n :: n in s.world.files && s.world.files[n].holder.HeldBy? ==>
      s.world.files[n].holder.pid in s.live && Holds(s.live[s.world.files[n].holder.pid].drain, n)
  }

  ghost predicate Fits(s: State) {
    && NamesFit(s.world)
    && LocksFit(s)
    && forall p :: p in s.live ==> ProcessFits(s.world, p, s.live[p])
  }

  /** What no step undoes. */
  ghost predicate Grows(w: World, w': World) {
    && (forall p :: p in w.counters ==> p in w'.counters && w.counters[p] <= w'.counters[p])
    && (forall n :: n in w.named ==> n in w'.named && w'.named[n] == w.named[n])
    && w.handed <= w'.handed && w.accepted <= w'.accepted && w.rejected <= w'.rejected
    && w.evicted <= w'.evicted && w.died <= w'.died && w.givenUp <= w'.givenUp
  }

  /** All that the rest of the proof needs to know of a caller's step. */
  ghost predicate CallerEffect(p: Pid, w: World, k: Caller, w': World, k': Caller) {
    && NamesFit(w') && CallerFits(w', p, k') && Grows(w, w')
    && (forall n :: n in w'.named && n !in w.named ==> k.Written? && n == k.name)
    && (forall n :: n in w'.files && n in w.named ==> n in w.files && w'.files[n] == w.files[n])
    && (forall n :: n in w'.files && n !in w.named ==> w'.files[n].holder == Unlocked)
    && (k'.Written? ==> !k.Written? && p in w.counters && k'.name.serial > w.counters[p])
  }

  lemma CallerStepGrows(c: Config, p: Pid, w: World, k: Caller, a: CallerAction, w': World, k': Caller)
    requires CallerStep(c, p, w, k, a, w', k')
    requires NamesFit(w) && CallerFits(w, p, k) && p in w.counters
    ensures NamesFit(w') && Grows(w, w')
  {
  }

  lemma CallerStepKeeps(c: Config, p: Pid, w: World, k: Caller, a: CallerAction, w': World, k': Caller)
    requires CallerStep(c, p, w, k, a, w', k')
    requires NamesFit(w) && CallerFits(w, p, k) && p in w.counters
    ensures CallerEffect(p, w, k, w', k')
  {
    CallerStepGrows(c, p, w, k, a, w', k');
  }

  lemma DrainStepGrows(c: Config, p: Pid, w: World, d: Drain, a: DrainAction, w': World, d': Drain)
    requires DrainStep(c, p, w, d, a, w', d') && NamesFit(w) && DrainFits(w, d)
    ensures NamesFit(w') && DrainFits(w', d') && Grows(w, w')
    ensures w'.named == w.named && w'.counters == w.counters
  {
  }

  lemma DrainStepKeeps(c: Config, p: Pid, w: World, d: Drain, a: DrainAction, w': World, d': Drain)
    requires DrainStep(c, p, w, d, a, w', d')
    requires NamesFit(w) && DrainFits(w, d)
    requires forall n :: Holds(d, n) && n in w.files ==> w.files[n].holder == HeldBy(p)
    requires forall n :: n in w.files && w.files[n].holder == HeldBy(p) ==> Holds(d, n)
    ensures NamesFit(w') && DrainFits(w', d') && Grows(w, w')
    ensures w'.named == w.named && w'.counters == w.counters
    ensures forall n :: Holds(d', n) && n in w'.files ==> w'.files[n].holder == HeldBy(p)
    ensures forall n :: n in w'.files && w'.files[n].holder == HeldBy(p) ==> Holds(d', n)
    ensures forall n, q :: q != p && n in w'.files ==>
      n in w.files && (w'.files[n].holder == HeldBy(q) <==> w.files[n].holder == HeldBy(q))
  {
    DrainStepGrows(c, p, w, d, a, w', d');
  }

  /** Another process's step leaves a process's own facts alone. */
  lemma OthersKeepFits(w: World, w': World, p: Pid, q: Process)
    requires ProcessFits(w, p, q) && NamesFit(w) && Grows(w, w')
    requires forall n :: n in w'.named && n !in w.named ==> n.pid != p
    requires forall n :: n in w'.files && n in w.named ==>
      n in w.files && (w'.files[n].holder == HeldBy(p) <==> w.files[n].holder == HeldBy(p))
    ensures ProcessFits(w', p, q)
  {
    forall t ensures CallerFits(w', p, CallerOf(q, t)) {
      assert CallerFits(w, p, CallerOf(q, t));
    }
  }

  lemma SerialsStayApart(w: World, p: Pid, q: Process, t: Tid, w': World, k': Caller)
    requires ProcessFits(w, p, q) && CallerEffect(p, w, CallerOf(q, t), w', k')
    ensures SerialsDiffer(q.(callers := q.callers[t := k']))
  {
    var q' := q.(callers := q.callers[t := k']);
    forall u ensures u != t ==> CallerOf(q', u) == CallerOf(q, u) && CallerFits(w, p, CallerOf(q', u)) {
      assert CallerFits(w, p, CallerOf(q, u));
    }
    assert CallerOf(q', t) == k';
  }

  lemma CallsKeepOwnFits(w: World, p: Pid, q: Process, t: Tid, w': World, k': Caller)
    requires ProcessFits(w, p, q) && CallerEffect(p, w, CallerOf(q, t), w', k')
    ensures ProcessFits(w', p, q.(callers := q.callers[t := k']))
  {
    var q' := q.(callers := q.callers[t := k']);
    SerialsStayApart(w, p, q, t, w', k');
    forall u ensures CallerFits(w', p, CallerOf(q', u)) {
      assert CallerFits(w, p, CallerOf(q, u)) && CallerFits(w, p, CallerOf(q, t));
    }
  }

  lemma CallerEffectKeepsFits(s: State, p: Pid, t: Tid, k': Caller, s': State)
    requires Fits(s) && p in s.live && CallerEffect(p, s.world, CallerOf(s.live[p], t), s'.world, k')
    requires s'.live == s.live[p := s.live[p].(callers := s.live[p].callers[t := k'])]
    ensures Fits(s')
  {
    var w, w', q := s.world, s'.world, s.live[p];
    assert ProcessFits(w, p, q) && CallerFits(w, p, CallerOf(q, t));
    CallsKeepOwnFits(w, p, q, t, w', k');
    forall r | r in s'.live && r != p ensures ProcessFits(w', r, s'.live[r]) {
      OthersKeepFits(w, w', r, s.live[r]);
    }
  }

  lemma CallsKeepFits(c: Config, s: State, p: Pid, t: Tid, call: CallerAction, s': State)
    requires Fits(s) && Step(c, s, Calls(p, t, call), s')
    ensures Fits(s') && Grows(s.world, s'.world)
  {
    var q, k, k' := s.live[p], CallerOf(s.live[p], t), CallerOf(s'.live[p], t);
    assert ProcessFits(s.world, p, q) && CallerFits(s.world, p, k);
    CallerStepKeeps(c, p, s.world, k, call, s'.world, k');
    CallerEffectKeepsFits(s, p, t, k', s');
  }

  lemma DrainsKeepFits(c: Config, s: State, p: Pid, drain: DrainAction, s': State)
    requires Fits(s) && Step(c, s, Drains(p, drain), s')
    ensures Fits(s') && Grows(s.world, s'.world)
  {
    var w, w', q, q' := s.world, s'.world, s.live[p], s'.live[p];
    assert ProcessFits(w, p, q);
    DrainStepKeeps(c, p, w, q.drain, drain, w', q'.drain);
    forall u ensures CallerFits(w', p, CallerOf(q', u)) {
      assert CallerFits(w, p, CallerOf(q, u));
    }
    assert forall u :: CallerOf(q', u) == CallerOf(q, u);
    forall r | r in s'.live && r != p ensures ProcessFits(w', r, s'.live[r]) {
      OthersKeepFits(w, w', r, s.live[r]);
    }
    forall n | n in w'.files && w'.files[n].holder.HeldBy?
      ensures w'.files[n].holder.pid in s'.live && Holds(s'.live[w'.files[n].holder.pid].drain, n)
    {
      var r := w'.files[n].holder.pid;
      if r != p {
        assert w.files[n].holder == HeldBy(r);
      }
    }
  }

  lemma StartKeepsFits(c: Config, s: State, p: Pid, s': State)
    requires Fits(s) && Step(c, s, Start(p), s')
    ensures Fits(s') && Grows(s.world, s'.world)
  {
    forall r | r in s'.live ensures ProcessFits(s'.world, r, s'.live[r]) {
      if r != p {
        OthersKeepFits(s.world, s'.world, r, s.live[r]);
      }
    }
  }

  lemma KillKeepsFits(c: Config, s: State, p: Pid, s': State)
    requires Fits(s) && Step(c, s, Kill(p), s')
    ensures Fits(s') && Grows(s.world, s'.world)
  {
    forall r | r in s'.live ensures ProcessFits(s'.world, r, s'.live[r]) {
      OthersKeepFits(s.world, s'.world, r, s.live[r]);
    }
  }

  lemma NextKeepsFits(c: Config, s: State, s': State)
    requires Fits(s) && Next(c, s, s')
    ensures Fits(s') && Grows(s.world, s'.world)
  {
    var a :| Step(c, s, a, s');
    match a
    case Start(p) => StartKeepsFits(c, s, p, s');
    case Kill(p) => KillKeepsFits(c, s, p, s');
    case Calls(p, t, call) => CallsKeepFits(c, s, p, t, call, s');
    case Drains(p, drain) => DrainsKeepFits(c, s, p, drain, s');
  }

  // ------------------------------------------------------------------ nothing is silently lost

  lemma CallerStepCovers(c: Config, p: Pid, w: World, k: Caller, a: CallerAction, w': World, k': Caller, b: Batch)
    requires CallerStep(c, p, w, k, a, w', k') && NamesFit(w) && CallerFits(w, p, k)
    requires b in InHandOf(k) || OnDisk(w, b)
    ensures b in InHandOf(k') || OnDisk(w', b) || Settled(w', b) || (!OnDisk(w, b) && b in w'.givenUp)
  {
    if a.Move? {
      assert w'.files[k.name].batch == k.batch;
    }
    if OnDisk(w, b) {
      var n :| n in w.files && w.files[n].batch == b;
      assert n in w'.files || Settled(w', b);
    }
  }

  lemma DrainStepCovers(c: Config, p: Pid, w: World, d: Drain, a: DrainAction, w': World, d': Drain, b: Batch)
    requires DrainStep(c, p, w, d, a, w', d') && NamesFit(w) && DrainFits(w, d)
    requires OnDisk(w, b)
    ensures OnDisk(w', b) || Settled(w', b)
  {
    var n :| n in w.files && w.files[n].batch == b;
    assert (n in w'.files && w'.files[n].batch == b) || Settled(w', b);
  }

  /** On disk, a batch survives every step and every kill until the server or the size limit has settled it. */
  lemma DiskIsDurable(c: Config, s: State, s': State, b: Batch)
    requires Fits(s) && Next(c, s, s')
    requires OnDisk(s.world, b)
    ensures OnDisk(s'.world, b) || Settled(s'.world, b)
  {
    var a :| Step(c, s, a, s');
    match a
    case Start(p) =>
    case Kill(p) =>
      var n :| n in s.world.files && s.world.files[n].batch == b;
      assert s'.world.files[n].batch == b;
    case Calls(p, t, call) =>
      assert ProcessFits(s.world, p, s.live[p]) && CallerFits(s.world, p, CallerOf(s.live[p], t));
      var k := CallerOf(s.live[p], t);
      if call.Move? {
        var n :| n in s.world.files && s.world.files[n].batch == b;
        assert s'.world.files[n].batch == b;
      } else {
        CallerStepCovers(c, p, s.world, k, call, s'.world, CallerOf(s'.live[p], t), b);
      }
    case Drains(p, drain) =>
      assert ProcessFits(s.world, p, s.live[p]);
      DrainStepCovers(c, p, s.world, s.live[p].drain, drain, s'.world, s'.live[p].drain, b);
  }

  lemma HandsAreCovered(c: Config, s: State, a: Action, s': State, p: Pid, b: Batch)
    requires Fits(s) && Step(c, s, a, s')
    requires p in s.live && b in InHandBy(s.live[p])
    ensures Covered(s', b)
  {
    if a.Kill? && a.p == p {
      return;
    }
    var t :| t in s.live[p].callers && b in InHandOf(s.live[p].callers[t]);
    assert p in s'.live;
    if a.Calls? && a.p == p && a.t == t {
      assert ProcessFits(s.world, p, s.live[p]) && CallerFits(s.world, p, CallerOf(s.live[p], t));
      CallerStepCovers(c, p, s.world, CallerOf(s.live[p], t), a.call, s'.world, CallerOf(s'.live[p], t), b);
    } else {
      assert t in s'.live[p].callers && s'.live[p].callers[t] == s.live[p].callers[t];
    }
    if t in s'.live[p].callers && b in InHandOf(s'.live[p].callers[t]) {
      assert b in InHandBy(s'.live[p]);
    }
  }

  lemma NextKeepsCovered(c: Config, s: State, s': State, b: Batch)
    requires Fits(s) && Next(c, s, s')
    requires b in s'.world.handed && (b in s.world.handed ==> Covered(s, b))
    ensures Covered(s', b)
  {
    NextKeepsFits(c, s, s');
    var a :| Step(c, s, a, s');
    if b !in s.world.handed {
      assert a.Calls? && b in InHandOf(s'.live[a.p].callers[a.t]);
      assert b in InHandBy(s'.live[a.p]);
    } else if InHand(s, b) {
      var p :| p in s.live && b in InHandBy(s.live[p]);
      HandsAreCovered(c, s, a, s', p, b);
    } else if OnDisk(s.world, b) {
      DiskIsDurable(c, s, s', b);
    }
  }

  lemma {:induction false} RunFits(c: Config, run: seq<State>, i: nat)
    requires Run(c, run) && i < |run|
    ensures Fits(run[i])
  {
    if i > 0 {
      RunFits(c, run, i - 1);
      assert Next(c, run[i - 1], run[i - 1 + 1]);
      NextKeepsFits(c, run[i - 1], run[i]);
    }
  }

  /**
   No silent loss: in every interleaving, at every moment, a batch given to Deliver or to Store is in a
   live caller's hands, on disk, taken or refused by the server, evicted, given up with a warning because
   its file could not be written or with an exception, or it died in the hands of a killed process.
   */
  lemma {:induction false} NoSilentLoss(c: Config, run: seq<State>, i: nat, b: Batch)
    requires Run(c, run) && i < |run|
    requires b in run[i].world.handed
    ensures Covered(run[i], b)
  {
    if i > 0 {
      RunFits(c, run, i - 1);
      assert Next(c, run[i - 1], run[i - 1 + 1]);
      if b in run[i - 1].world.handed {
        NoSilentLoss(c, run, i - 1, b);
      }
      NextKeepsCovered(c, run[i - 1], run[i], b);
    }
  }

  predicate IsSafe(w: World, b: Batch) {
    OnDisk(w, b) || Settled(w, b)
  }

  lemma DiskIsSafe(w: World, b: Batch)
    requires OnDisk(w, b)
    ensures IsSafe(w, b)
  {
  }

  lemma NextKeepsSafe(c: Config, s: State, s': State, b: Batch)
    requires Fits(s) && Next(c, s, s') && IsSafe(s.world, b)
    ensures IsSafe(s'.world, b)
  {
    NextKeepsFits(c, s, s');
    if OnDisk(s.world, b) {
      DiskIsDurable(c, s, s', b);
    }
  }

  lemma RunKeepsSafe(c: Config, run: seq<State>, i: nat, b: Batch)
    requires Run(c, run) && i < |run| - 1 && IsSafe(run[i].world, b)
    ensures IsSafe(run[i + 1].world, b)
  {
    RunFits(c, run, i);
    assert Next(c, run[i], run[i + 1]);
    NextKeepsSafe(c, run[i], run[i + 1], b);
  }

  /** Once on disk, a batch stays there until it is settled, whatever is killed in between. */
  lemma {:induction false} StoredIsDurable(c: Config, run: seq<State>, i: nat, j: nat, b: Batch)
    requires Run(c, run) && i <= j < |run|
    requires OnDisk(run[i].world, b)
    ensures IsSafe(run[j].world, b)
    decreases j
  {
    hide Run, IsSafe;
    if i < j {
      StoredIsDurable(c, run, i, j - 1, b);
      RunKeepsSafe(c, run, j - 1, b);
    } else {
      DiskIsSafe(run[j].world, b);
    }
  }

  /** Claims are exclusive: two processes never work on the same existing file at the same time. */
  lemma ClaimsAreExclusive(c: Config, run: seq<State>, i: nat, p: Pid, q: Pid, n: Name)
    requires Run(c, run) && i < |run|
    requires p in run[i].live && q in run[i].live && n in run[i].world.files
    requires Holds(run[i].live[p].drain, n) && Holds(run[i].live[q].drain, n)
    ensures p == q
  {
    RunFits(c, run, i);
    assert ProcessFits(run[i].world, p, run[i].live[p]) && ProcessFits(run[i].world, q, run[i].live[q]);
  }
}
