/** The order in which the server first accepts batches. */
module DeliveryOrder {

  // One process at a time, one caller of Deliver, a clock that strictly increases, HasPending and Store taken
  // as single steps. Requests may be lost on the way back, writing and deleting may fail, and the process may be
  // killed and started again at any moment. Batches are numbered in the order they are handed over.

  import opened Outbox

  type Batch = nat
  type Ticks = nat

  /**
   `largest`: no batch is bigger. `exclusive`: deleting a file that a stream holds open fails, as it does
   where file locks are mandatory; elsewhere the deletion succeeds and the stream stays readable. `late`: the
   server may take a request after the client has given it up. `claimsFail`: opening a file that is there may fail, as
   another program holds it or this account may not read it.
   */
  datatype Config = Config(maxBytes: int, largest: nat, exclusive: bool, late: bool, claimsFail: bool)

  datatype Caller = Idle | Deciding(batch: Batch) | Sending(batch: Batch, taken: bool) | Storing(batch: Batch)

  /** `upTo`: the clock when the directory was listed. */
  datatype Drain =
    | Free
    | Listing(todo: seq<Ticks>, upTo: Ticks)
    | Posting(at: Ticks, batch: Batch, taken: bool, todo: seq<Ticks>, upTo: Ticks)
    | Answered(at: Ticks, todo: seq<Ticks>, upTo: Ticks)

  datatype State = State(
    files: map<Ticks, Batch>,
    hint: int,
    clock: Ticks,
    sizes: seq<nat>,           // of the batches handed over so far
    caller: Caller,
    drain: Drain,
    log: seq<Batch>,           // what the server accepted, in order
    rejected: set<Batch>,      // refused for their content: refused again whenever sent again
    late: set<Batch>           // with a request given up that the server may still take
  )

  datatype Action =
    | Hand(size: nat)
    | Decide(circuitOpen: bool)
    | ServerTakes
    | ReplyOk
    | ReplyDrop
    | ReplyRetry(lost: bool)
    | LateTakes(batch: Batch)
    | Look
    | Store(ticks: Ticks, order: seq<Ticks>, failing: set<Ticks>)
    | GiveUp
    | Begin(order: seq<Ticks>)
    | Claim
    | PassOver
    | DrainTaken
    | DrainOk
    | DrainDrop
    | DrainStop(lost: bool)
    | Delete(deleted: bool)
    | End
    | Restart(lost: bool)

  ghost predicate AscendingTicks(order: seq<Ticks>) {
    forall i, j :: 0 <= i < j < |order| ==> order[i] < order[j]
  }

  ghost predicate ListsTicks(order: seq<Ticks>, ticks: set<Ticks>) {
    && AscendingTicks(order)
    && (forall n :: n in order <==> n in ticks)
  }

  predicate HasPending(s: State) {
    s.hint != 0 && s.files != map[]
  }

  function HintAfterLook(s: State): int {
    if s.hint == 0 || s.files == map[] then 0 else 1
  }

  function Held(c: Config, d: Drain): set<Ticks> {
    if c.exclusive && d.Posting? then {d.at} else {}
  }

  function SizesOf(s: State, files: map<Ticks, Batch>, order: seq<Ticks>): seq<nat> {
    seq(|order|, i requires 0 <= i < |order| =>
      if order[i] in files && files[order[i]] < |s.sizes| then s.sizes[files[order[i]]] else 0)
  }

  function Evicted(c: Config, s: State, files: map<Ticks, Batch>, order: seq<Ticks>, failing: set<Ticks>): set<Ticks> {
    var sizes := SizesOf(s, files, order);
    (set n | n in order[..Chosen(sizes, Sum(sizes), c.maxBytes)]) - failing - Held(c, s.drain)
  }

  /** The batches of requests that the server has not taken and the client has not given up. */
  function InFlight(s: State): set<Batch> {
    (if s.caller.Sending? && !s.caller.taken then {s.caller.batch} else {})
    + (if s.drain.Posting? && !s.drain.taken then {s.drain.batch} else {})
  }

  /** What may be taken late once these requests are given up. */
  function LateAfter(s: State, lost: bool, given: set<Batch>): set<Batch> {
    if lost then s.late + InFlight(s) * given else s.late
  }

  ghost predicate Step(c: Config, s: State, a: Action, s': State) {
    match a
    case Hand(size) =>
      && s.caller == Idle && size <= c.largest
      && s' == s.(caller := Deciding(|s.sizes|), sizes := s.sizes + [size])
    case Decide(circuitOpen) =>
      && s.caller.Deciding?
      && s' == if circuitOpen then s.(caller := Storing(s.caller.batch))
               else if HasPending(s) then s.(caller := Storing(s.caller.batch), hint := HintAfterLook(s))
               else s.(caller := Sending(s.caller.batch, false), hint := HintAfterLook(s))
    case ServerTakes =>
      && s.caller.Sending? && s.caller.batch !in s.rejected
      && s' == s.(caller := s.caller.(taken := true), log := s.log + [s.caller.batch])
    case ReplyOk =>
      s.caller.Sending? && s.caller.taken && s' == s.(caller := Idle)
    case ReplyDrop =>
      && s.caller.Sending? && !s.caller.taken
      && s' == s.(caller := Idle, rejected := s.rejected + {s.caller.batch})
    case ReplyRetry(lost) =>
      && s.caller.Sending? && (lost ==> c.late)
      && s' == s.(caller := Storing(s.caller.batch), late := LateAfter(s, lost, {s.caller.batch}))
    case LateTakes(b) =>
      && b in s.late && b !in s.rejected
      && s' == s.(log := s.log + [b], late := s.late - {b})
    case Look =>
      // the retry loop, before it drains
      s' == s.(hint := HintAfterLook(s))
    case Store(ticks, order, failing) =>
      && s.caller.Storing? && ticks > s.clock
      && var all := s.files[ticks := s.caller.batch];
      && ListsTicks(order, all.Keys)
      && s' == s.(caller := Idle, clock := ticks, hint := 1, files := all - Evicted(c, s, all, order, failing))
    case GiveUp =>
      // the file cannot be written
      s.caller.Storing? && s' == s.(caller := Idle)
    case Begin(order) =>
      && s.drain == Free && ListsTicks(order, s.files.Keys)
      && s' == s.(drain := Listing(order, s.clock))
    case Claim =>
      // a file that is gone cannot be claimed: the drain passes on
      && s.drain.Listing? && s.drain.todo != []
      && var n, rest := s.drain.todo[0], s.drain.todo[1..];
      && s' == s.(drain := if n in s.files then Posting(n, s.files[n], false, rest, s.drain.upTo)
                           else Listing(rest, s.drain.upTo))
    case PassOver =>
      && c.claimsFail && s.drain.Listing? && s.drain.todo != []
      && s' == s.(drain := Listing(s.drain.todo[1..], s.drain.upTo))
    case DrainTaken =>
      && s.drain.Posting? && s.drain.batch !in s.rejected
      && s' == s.(drain := s.drain.(taken := true), log := s.log + [s.drain.batch])
    case DrainOk =>
      && s.drain.Posting? && s.drain.taken
      && s' == s.(drain := Answered(s.drain.at, s.drain.todo, s.drain.upTo))
    case DrainDrop =>
      && s.drain.Posting? && !s.drain.taken
      && s' == s.(drain := Answered(s.drain.at, s.drain.todo, s.drain.upTo), rejected := s.rejected + {s.drain.batch})
    case DrainStop(lost) =>
      && (s.drain.Listing? || s.drain.Posting?) && (lost ==> c.late)
      && s' == s.(drain := Free, late := LateAfter(s, lost, if s.drain.Posting? then {s.drain.batch} else {}))
    case Delete(deleted) =>
      && s.drain.Answered?
      && s' == s.(drain := Listing(s.drain.todo, s.drain.upTo),
                  files := if deleted then s.files - {s.drain.at} else s.files)
    case End =>
      s.drain.Listing? && s.drain.todo == [] && s' == s.(drain := Free, hint := -1)
    case Restart(lost) =>
      && (lost ==> c.late)
      && s' == s.(caller := Idle, drain := Free, hint := -1, late := LateAfter(s, lost, InFlight(s)))
  }

  ghost predicate Next(c: Config, s: State, s': State) {
    exists a :: Step(c, s, a, s')
  }

  ghost predicate Init(s: State) {
    s == State(map[], -1, 0, [], Idle, Free, [], {}, {})
  }

  ghost predicate Run(c: Config, run: seq<State>) {
    && run != [] && Init(run[0])
    && forall i :: 0 <= i < |run| - 1 ==> Next(c, run[i], run[i + 1])
  }

  /** Every batch the server sees for the first time is newer than all it accepted before. */
  ghost predicate InOrder(log: seq<Batch>) {
    forall j :: 0 <= j < |log| ==> NewestIfNew(log, j)
  }

  predicate NewestIfNew(log: seq<Batch>, j: nat)
    requires j < |log|
  {
    log[j] in log[..j] || forall i :: 0 <= i < j ==> log[i] < log[j]
  }

  ghost predicate OrderHolds(c: Config) {
    forall run: seq<State>, i: int :: Run(c, run) && 0 <= i < |run| ==> InOrder(run[i].log)
  }

  /** Either claimed files cannot be deleted, or no batch alone fills the buffer. */
  predicate Suits(c: Config) {
    c.exclusive || c.largest <= c.maxBytes
  }

  // ------------------------------------------------------------------ the invariant

  predicate Open(s: State, b: Batch) {
    b !in s.log && b !in s.rejected
  }

  ghost predicate SizesFit(c: Config, s: State) {
    forall i :: 0 <= i < |s.sizes| ==> s.sizes[i] <= c.largest
  }

  ghost predicate FilesFit(s: State) {
    && (forall n :: n in s.files ==> n <= s.clock && s.files[n] < |s.sizes|)
    && (forall m, n :: m in s.files && n in s.files && m < n ==> s.files[m] < s.files[n])
  }

  /** The hint never hides a file, and every open batch on disk is newer than all accepted ones. */
  ghost predicate LogFits(s: State) {
    && (forall x, n :: x in s.log && n in s.files && Open(s, s.files[n]) ==> x < s.files[n])
    && (forall x :: x in s.log ==> x < |s.sizes|)
    && s.hint in {-1, 0, 1}
    && (s.hint == 0 ==> s.files == map[])
    && InOrder(s.log)
  }

  ghost predicate CallerFits(s: State) {
    && (!s.caller.Idle? ==> s.caller.batch == |s.sizes| - 1 && forall n :: n in s.files ==> s.files[n] < s.caller.batch)
    && (s.caller.Deciding? ==> s.caller.batch !in s.log && s.caller.batch !in s.late)
    && (s.caller.Sending? ==> s.files == map[] && !s.drain.Posting? && s.caller.batch !in s.late)
    && (s.caller.Sending? ==> (s.caller.taken <==> s.caller.batch in s.log))
  }

  /** The drain works on the oldest open batch; what it has not reached yet and is open is still on its list. */
  ghost predicate DrainFits(s: State) {
    var d := s.drain;
    !d.Free? ==>
      && d.upTo <= s.clock
      && AscendingTicks(d.todo)
      && (forall n :: n in d.todo ==> n <= d.upTo)
      && (forall n :: n in s.files && n <= d.upTo && Open(s, s.files[n]) ==> n in d.todo || (d.Posting? && n == d.at))
      && (d.Posting? || d.Answered? ==> d.at <= d.upTo && forall n :: n in d.todo ==> d.at < n)
  }

  ghost predicate PostingFits(c: Config, s: State) {
    var d := s.drain;
    d.Posting? ==>
      && d.batch < |s.sizes|
      && (d.taken ==> d.batch in s.log)
      && s.files != map[]
      && (c.exclusive ==> d.at in s.files)
      && (d.at in s.files ==> s.files[d.at] == d.batch)
      && (forall n :: n in s.files && n > d.at ==> d.batch < s.files[n])
      && (forall x :: x in s.log && Open(s, d.batch) ==> x < d.batch)
      && (!s.caller.Idle? ==> d.batch < s.caller.batch)
  }

  /** No open batch of the client is older, and the server has accepted none that is newer. */
  ghost predicate IsOldest(s: State, b: Batch) {
    && (forall x :: x in s.log ==> x < b)
    && (forall n :: n in s.files && Open(s, s.files[n]) ==> b <= s.files[n])
    && (s.drain.Posting? && Open(s, s.drain.batch) ==> b == s.drain.batch)
  }

  ghost predicate LateFits(s: State) {
    forall b :: b in s.late ==> b < |s.sizes| && (Open(s, b) ==> IsOldest(s, b))
  }

  ghost predicate Inv(c: Config, s: State) {
    SizesFit(c, s) && FilesFit(s) && LogFits(s) && CallerFits(s) && DrainFits(s) && PostingFits(c, s) && LateFits(s)
  }

  predicate IsAtHand(s: State, b: Batch) {
    || (s.caller.Storing? && s.caller.batch == b)
    || exists n :: n in s.files && s.files[n] == b
  }

  /** Each batch whose request was given up is on disk, or about to be, until the server has settled it. */
  predicate Keeps(s: State) {
    forall b :: b in s.late && Open(s, b) ==> IsAtHand(s, b)
  }

  // ------------------------------------------------------------------ what every step keeps

  /** A batch newer than all accepted ones, or already accepted, may be accepted next. */
  lemma AcceptKeepsOrder(log: seq<Batch>, b: Batch)
    requires InOrder(log)
    requires b in log || forall x :: x in log ==> x < b
    ensures InOrder(log + [b])
  {
    var log' := log + [b];
    forall j | 0 <= j < |log'| ensures NewestIfNew(log', j) {
      if j < |log| {
        assert NewestIfNew(log, j);
        assert log'[..j] == log[..j] && log'[j] == log[j];
      } else {
        assert log'[..j] == log && log'[j] == b;
        assert forall i :: 0 <= i < j ==> log'[i] in log;
      }
    }
  }

  lemma TailAscends(todo: seq<Ticks>)
    requires AscendingTicks(todo) && todo != []
    ensures AscendingTicks(todo[1..])
    ensures forall n :: n in todo[1..] ==> n in todo && todo[0] < n
    ensures forall n :: n in todo ==> n == todo[0] || n in todo[1..]
  {
    assert todo == [todo[0]] + todo[1..];
  }

  /** Nothing but the hint, the caller and the drain's leaving changes, and the log stays. */
  lemma QuietKeepsLate(c: Config, s: State, s': State)
    requires Inv(c, s) && s'.log == s.log && s'.rejected >= s.rejected && s'.files == s.files && |s'.sizes| >= |s.sizes|
    requires s'.late == s.late && (s'.drain == s.drain || !s'.drain.Posting?)
    ensures LateFits(s')
  {
    forall b | b in s'.late && Open(s', b) ensures IsOldest(s', b) {
      assert Open(s, b) && IsOldest(s, b);
    }
  }

  lemma HandKeeps(c: Config, s: State, size: nat, s': State)
    requires Inv(c, s) && Step(c, s, Hand(size), s')
    ensures Inv(c, s')
  {
    QuietKeepsLate(c, s, s');
  }

  lemma GiveUpKeeps(c: Config, s: State, s': State)
    requires Inv(c, s) && Step(c, s, GiveUp, s')
    ensures Inv(c, s')
  {
    QuietKeepsLate(c, s, s');
  }

  lemma DecideKeeps(c: Config, s: State, circuitOpen: bool, s': State)
    requires Inv(c, s) && Step(c, s, Decide(circuitOpen), s')
    ensures Inv(c, s')
  {
    QuietKeepsLate(c, s, s');
  }

  lemma LookKeeps(c: Config, s: State, s': State)
    requires Inv(c, s) && Step(c, s, Look, s')
    ensures Inv(c, s')
  {
    QuietKeepsLate(c, s, s');
  }

  /** While the caller sends, nothing is on disk, and nothing given up is open. */
  lemma NothingGivenUpIsOpen(c: Config, s: State, b: Batch)
    requires Inv(c, s) && Keeps(s) && s.caller.Sending? && b in s.late
    ensures !Open(s, b)
  {
    assert !IsAtHand(s, b);
  }

  lemma ServerTakesKeeps(c: Config, s: State, s': State)
    requires Inv(c, s) && Keeps(s) && Step(c, s, ServerTakes, s')
    ensures Inv(c, s')
  {
    AcceptKeepsOrder(s.log, s.caller.batch);
    forall b | b in s'.late ensures !Open(s', b) {
      NothingGivenUpIsOpen(c, s, b);
    }
  }

  lemma ReplyKeeps(c: Config, s: State, a: Action, s': State)
    requires Inv(c, s) && Step(c, s, a, s') && (a.ReplyOk? || a.ReplyDrop?)
    ensures Inv(c, s')
  {
    QuietKeepsLate(c, s, s');
  }

  /** A request given up is one of the oldest open batch. */
  lemma InFlightIsOldest(c: Config, s: State, b: Batch)
    requires Inv(c, s) && b in InFlight(s) && Open(s, b)
    ensures b < |s.sizes| && IsOldest(s, b)
  {
    if s.drain.Posting? && b == s.drain.batch {
      forall n | n in s.files && Open(s, s.files[n]) ensures b <= s.files[n] {
        assert n <= s.drain.upTo ==> n in s.drain.todo || n == s.drain.at;
      }
    }
  }

  lemma GivenUpFits(c: Config, s: State, lost: bool, given: set<Batch>, s': State)
    requires Inv(c, s) && s'.late == LateAfter(s, lost, given)
    requires s'.log == s.log && s'.rejected == s.rejected && s'.files == s.files && s'.sizes == s.sizes
    requires s'.drain == s.drain || !s'.drain.Posting?
    ensures LateFits(s')
  {
    forall b | b in s'.late ensures b < |s'.sizes| && (Open(s', b) ==> IsOldest(s', b)) {
      if b !in s.late && Open(s, b) {
        InFlightIsOldest(c, s, b);
      } else if b !in s.late {
        assert b in InFlight(s);
      }
    }
  }

  lemma ReplyRetryKeeps(c: Config, s: State, lost: bool, s': State)
    requires Inv(c, s) && Step(c, s, ReplyRetry(lost), s')
    ensures Inv(c, s')
  {
    GivenUpFits(c, s, lost, {s.caller.batch}, s');
  }

  lemma DrainStopKeeps(c: Config, s: State, lost: bool, s': State)
    requires Inv(c, s) && Step(c, s, DrainStop(lost), s')
    ensures Inv(c, s')
  {
    GivenUpFits(c, s, lost, if s.drain.Posting? then {s.drain.batch} else {}, s');
    if s.drain.Posting? && s.caller.Deciding? {
      assert s.drain.batch < s.caller.batch;
    }
  }

  lemma RestartKeeps(c: Config, s: State, lost: bool, s': State)
    requires Inv(c, s) && Step(c, s, Restart(lost), s')
    ensures Inv(c, s')
  {
    GivenUpFits(c, s, lost, InFlight(s), s');
  }

  /** Of the batches whose request was given up, one at most is open. */
  lemma OneIsOpen(c: Config, s: State, a: Batch, b: Batch)
    requires Inv(c, s) && Keeps(s) && a in s.late && b in s.late && Open(s, a) && Open(s, b)
    ensures a == b
  {
    assert IsOldest(s, a) && IsOldest(s, b) && IsAtHand(s, a) && IsAtHand(s, b);
  }

  lemma LateTakesKeeps(c: Config, s: State, b: Batch, s': State)
    requires Inv(c, s) && Keeps(s) && Step(c, s, LateTakes(b), s')
    ensures Inv(c, s')
  {
    assert Open(s, b) ==> IsOldest(s, b);
    AcceptKeepsOrder(s.log, b);
    LateTakesKeepsLate(c, s, b, s');
  }

  lemma LateTakesKeepsLate(c: Config, s: State, b: Batch, s': State)
    requires Inv(c, s) && Keeps(s) && Step(c, s, LateTakes(b), s')
    ensures LateFits(s')
  {
    forall x | x in s'.late && Open(s', x) ensures IsOldest(s', x) {
      assert Open(s, x) && IsOldest(s, x);
      if Open(s, b) {
        OneIsOpen(c, s, b, x);
      }
    }
  }

  lemma BeginKeeps(c: Config, s: State, order: seq<Ticks>, s': State)
    requires Inv(c, s) && Step(c, s, Begin(order), s')
    ensures Inv(c, s')
  {
    QuietKeepsLate(c, s, s');
  }

  lemma ClaimKeeps(c: Config, s: State, s': State)
    requires Inv(c, s) && Keeps(s) && Step(c, s, Claim, s')
    ensures Inv(c, s')
  {
    var n := s.drain.todo[0];
    TailAscends(s.drain.todo);
    assert n in s.drain.todo;
    if n in s.files {
      ClaimKeepsLate(c, s, s');
    } else {
      QuietKeepsLate(c, s, s');
    }
  }

  /** What the drain comes to, when it is open, is the oldest open batch on disk. */
  lemma NextOnListIsOldest(c: Config, s: State, n: Ticks)
    requires Inv(c, s) && s.drain.Listing? && s.drain.todo != [] && s.drain.todo[0] in s.files
    requires n in s.files && Open(s, s.files[n])
    ensures s.files[s.drain.todo[0]] <= s.files[n]
  {
    var todo := s.drain.todo;
    TailAscends(todo);
    assert todo[0] in todo;
    assert n <= s.drain.upTo ==> n in todo;
  }

  /** When it is open, it is the one whose request may have been given up. */
  lemma ClaimKeepsLate(c: Config, s: State, s': State)
    requires Inv(c, s) && Keeps(s) && Step(c, s, Claim, s') && s.drain.todo[0] in s.files
    ensures LateFits(s')
  {
    forall n | n in s.files && Open(s, s.files[n]) ensures s.files[s.drain.todo[0]] <= s.files[n] {
      NextOnListIsOldest(c, s, n);
    }
    forall b | b in s'.late && Open(s', b) ensures IsOldest(s', b) {
      assert Open(s, b) && IsOldest(s, b) && IsAtHand(s, b);
    }
  }

  lemma DrainTakenKeeps(c: Config, s: State, s': State)
    requires Inv(c, s) && Step(c, s, DrainTaken, s')
    ensures Inv(c, s')
  {
    AcceptKeepsOrder(s.log, s.drain.batch);
    DrainTakenKeepsLog(c, s, s');
    forall b | b in s'.late && Open(s', b) ensures IsOldest(s', b) {
      assert Open(s, b) && IsOldest(s, b);
    }
  }

  lemma DrainTakenKeepsLog(c: Config, s: State, s': State)
    requires Inv(c, s) && Step(c, s, DrainTaken, s') && InOrder(s'.log)
    ensures LogFits(s')
  {
    var at, todo, upTo := s.drain.at, s.drain.todo, s.drain.upTo;
    forall n | n in s'.files && Open(s', s'.files[n]) ensures s.drain.batch < s'.files[n] {
      assert Open(s, s.files[n]);
      assert n <= upTo ==> n in todo || n == at;
    }
  }

  lemma DrainAnswerKeeps(c: Config, s: State, a: Action, s': State)
    requires Inv(c, s) && Step(c, s, a, s') && (a.DrainOk? || a.DrainDrop?)
    ensures Inv(c, s')
  {
    QuietKeepsLate(c, s, s');
  }

  lemma DrainLeaveKeeps(c: Config, s: State, a: Action, s': State)
    requires Inv(c, s) && Step(c, s, a, s') && (a.Delete? || a.End?)
    ensures Inv(c, s')
  {
    forall b | b in s'.late && Open(s', b) ensures IsOldest(s', b) {
      assert Open(s, b) && IsOldest(s, b);
    }
  }

  /** A stored batch that fits in the buffer by itself is never evicted by its own Store. */
  lemma NewestStays(c: Config, s: State, ticks: Ticks, order: seq<Ticks>, failing: set<Ticks>)
    requires Inv(c, s) && s.caller.Storing? && ticks > s.clock && c.largest <= c.maxBytes
    requires ListsTicks(order, s.files.Keys + {ticks})
    ensures ticks !in Evicted(c, s, s.files[ticks := s.caller.batch], order, failing)
  {
    var all := s.files[ticks := s.caller.batch];
    var sizes := SizesOf(s, all, order);
    var k := Chosen(sizes, Sum(sizes), c.maxBytes);
    assert ticks in order;
    var last := |order| - 1;
    assert forall i :: 0 <= i < |order| ==> order[i] in s.files.Keys + {ticks};
    assert order[last] == ticks;
    ChosenIsShortest(sizes, c.maxBytes);
    assert sizes[last..] == [sizes[last]];
    assert k <= last;
    assert forall i :: 0 <= i < k ==> order[i] < order[last];
  }

  /** A Store: a new file, some files gone, none of them held by a claim. */
  ghost predicate IsStored(c: Config, s: State, ticks: Ticks, gone: set<Ticks>, s': State) {
    && s.caller.Storing? && ticks > s.clock
    && s' == s.(caller := Idle, clock := ticks, hint := 1, files := s.files[ticks := s.caller.batch] - gone)
    && gone !! Held(c, s.drain)
    && (c.exclusive || ticks in s'.files)
  }

  lemma StoreKeeps(c: Config, s: State, ticks: Ticks, order: seq<Ticks>, failing: set<Ticks>, s': State)
    requires Suits(c) && Inv(c, s) && Step(c, s, Store(ticks, order, failing), s')
    ensures Inv(c, s')
  {
    var all := s.files[ticks := s.caller.batch];
    assert all.Keys == s.files.Keys + {ticks};
    if !c.exclusive {
      NewestStays(c, s, ticks, order, failing);
      assert ticks in s'.files;
    }
    var gone := Evicted(c, s, all, order, failing);
    StoredFilesFit(c, s, ticks, gone, s');
    StoredLogFits(c, s, ticks, gone, s');
    StoredDrainFits(c, s, ticks, gone, s');
    StoredPostingFits(c, s, ticks, gone, s');
    StoredLateFits(c, s, ticks, gone, s');
  }

  lemma StoredAre(c: Config, s: State, ticks: Ticks, gone: set<Ticks>, s': State, n: Ticks)
    requires FilesFit(s) && IsStored(c, s, ticks, gone, s') && n in s'.files
    ensures if n == ticks then s'.files[n] == s.caller.batch else n < ticks && n in s.files && s'.files[n] == s.files[n]
  {
  }

  lemma StoredFilesFit(c: Config, s: State, ticks: Ticks, gone: set<Ticks>, s': State)
    requires FilesFit(s) && CallerFits(s) && IsStored(c, s, ticks, gone, s')
    ensures FilesFit(s') && CallerFits(s')
  {
    forall n | n in s'.files ensures n <= ticks && s'.files[n] < |s'.sizes| {
      StoredAre(c, s, ticks, gone, s', n);
    }
    forall m, n | m in s'.files && n in s'.files && m < n ensures s'.files[m] < s'.files[n] {
      StoredAre(c, s, ticks, gone, s', m);
      StoredAre(c, s, ticks, gone, s', n);
    }
  }

  lemma StoredLogFits(c: Config, s: State, ticks: Ticks, gone: set<Ticks>, s': State)
    requires FilesFit(s) && LogFits(s) && CallerFits(s) && IsStored(c, s, ticks, gone, s')
    ensures LogFits(s')
  {
    forall x, n | x in s'.log && n in s'.files && Open(s', s'.files[n]) ensures x < s'.files[n] {
      StoredAre(c, s, ticks, gone, s', n);
    }
  }

  lemma StoredDrainFits(c: Config, s: State, ticks: Ticks, gone: set<Ticks>, s': State)
    requires FilesFit(s) && DrainFits(s) && IsStored(c, s, ticks, gone, s')
    ensures DrainFits(s')
  {
    var d := s.drain;
    if !d.Free? {
      forall n | n in s'.files && n <= d.upTo && Open(s', s'.files[n])
        ensures n in d.todo || (d.Posting? && n == d.at) {
        StoredAre(c, s, ticks, gone, s', n);
      }
    }
  }

  lemma StoredPostingFits(c: Config, s: State, ticks: Ticks, gone: set<Ticks>, s': State)
    requires Inv(c, s) && IsStored(c, s, ticks, gone, s')
    ensures PostingFits(c, s')
  {
    var d := s.drain;
    if d.Posting? {
      assert c.exclusive ==> d.at in s'.files;
      assert s'.files != map[];
      if d.at in s'.files {
        StoredAre(c, s, ticks, gone, s', d.at);
      }
      forall n | n in s'.files && n > d.at ensures d.batch < s'.files[n] {
        StoredAre(c, s, ticks, gone, s', n);
      }
    }
  }

  lemma StoredLateFits(c: Config, s: State, ticks: Ticks, gone: set<Ticks>, s': State)
    requires Inv(c, s) && IsStored(c, s, ticks, gone, s')
    ensures LateFits(s')
  {
    forall b | b in s'.late && Open(s', b) ensures IsOldest(s', b) {
      assert Open(s, b) && IsOldest(s, b) && b < |s.sizes|;
      forall n | n in s'.files && Open(s', s'.files[n]) ensures b <= s'.files[n] {
        StoredAre(c, s, ticks, gone, s', n);
      }
    }
  }

  /** Every step keeps the invariant, as long as no open batch was lost whose request may still be taken. */
  lemma NextKeeps(c: Config, s: State, s': State)
    requires Suits(c) && !c.claimsFail && Inv(c, s) && Keeps(s) && Next(c, s, s')
    ensures Inv(c, s')
  {
    var a :| Step(c, s, a, s');
    match a
    case Hand(size) => HandKeeps(c, s, size, s');
    case Decide(circuitOpen) => DecideKeeps(c, s, circuitOpen, s');
    case Look => LookKeeps(c, s, s');
    case ServerTakes => ServerTakesKeeps(c, s, s');
    case ReplyOk => ReplyKeeps(c, s, a, s');
    case ReplyDrop => ReplyKeeps(c, s, a, s');
    case ReplyRetry(lost) => ReplyRetryKeeps(c, s, lost, s');
    case LateTakes(b) => LateTakesKeeps(c, s, b, s');
    case Store(ticks, order, failing) => StoreKeeps(c, s, ticks, order, failing, s');
    case GiveUp => GiveUpKeeps(c, s, s');
    case Begin(order) => BeginKeeps(c, s, order, s');
    case Claim => ClaimKeeps(c, s, s');
    case DrainTaken => DrainTakenKeeps(c, s, s');
    case DrainOk => DrainAnswerKeeps(c, s, a, s');
    case DrainDrop => DrainAnswerKeeps(c, s, a, s');
    case DrainStop(lost) => DrainStopKeeps(c, s, lost, s');
    case Delete(_) => DrainLeaveKeeps(c, s, a, s');
    case End => DrainLeaveKeeps(c, s, a, s');
    case Restart(lost) => RestartKeeps(c, s, lost, s');
  }

  lemma {:induction false} RunKeeps(c: Config, run: seq<State>, i: nat)
    requires Suits(c) && !c.claimsFail && Run(c, run) && i < |run|
    requires forall j :: 0 <= j < i ==> Keeps(run[j])
    ensures Inv(c, run[i])
  {
    if i > 0 {
      RunKeeps(c, run, i - 1);
      assert Next(c, run[i - 1], run[i - 1 + 1]);
      NextKeeps(c, run[i - 1], run[i]);
    }
  }

  lemma {:induction false} NothingIsLate(c: Config, run: seq<State>, i: nat)
    requires !c.late && Run(c, run) && i < |run|
    ensures run[i].late == {}
  {
    if i > 0 {
      NothingIsLate(c, run, i - 1);
      assert Next(c, run[i - 1], run[i - 1 + 1]);
    }
  }

  /**
   Requests given up may be taken late; the order holds all the same in every run that loses no open batch, to the
   size limit or to a kill, while a request of it may still be taken.
   */
  lemma OrderHoldsWhileKept(c: Config, run: seq<State>, i: nat)
    requires Suits(c) && !c.claimsFail && Run(c, run) && i < |run|
    requires forall j :: 0 <= j < i ==> Keeps(run[j])
    ensures InOrder(run[i].log)
  {
    RunKeeps(c, run, i);
  }

  // ------------------------------------------------------------------ when the order is lost

  lemma Extend(c: Config, run: seq<State>, a: Action, s': State)
    requires Run(c, run) && Step(c, run[|run| - 1], a, s')
    ensures Run(c, run + [s'])
  {
    var run' := run + [s'];
    forall i | 0 <= i < |run'| - 1 ensures Next(c, run'[i], run'[i + 1]) {
      if i < |run| - 1 {
        assert Next(c, run[i], run[i + 1]);
      } else {
        assert Step(c, run'[i], a, run'[i + 1]);
      }
    }
  }

  lemma Then(c: Config, run: seq<State>, a: Action, s: State) returns (longer: seq<State>)
    requires Run(c, run) && Step(c, run[|run| - 1], a, s)
    ensures Run(c, longer) && longer == run + [s]
  {
    Extend(c, run, a, s);
    longer := run + [s];
  }

  const START := State(map[], -1, 0, [], Idle, Free, [], {}, {})

  /** Batch 0 is stored after a failed request. */
  const STORED := START.(clock := 1, hint := 1, files := map[1 := 0], sizes := [0])

  lemma FirstIsStored(c: Config) returns (run: seq<State>)
    ensures Run(c, run) && run[|run| - 1] == STORED
  {
    var handed := START.(caller := Deciding(0), sizes := [0]);
    var sending := handed.(caller := Sending(0, false), hint := 0);
    var storing := sending.(caller := Storing(0));
    run := [START];
    run := Then(c, run, Hand(0), handed);
    run := Then(c, run, Decide(false), sending);
    run := Then(c, run, ReplyRetry(false), storing);
    assert storing.files[1 := 0] - Evicted(c, storing, storing.files[1 := 0], [1], {1}) == STORED.files;
    run := Then(c, run, Store(1, [1], {1}), STORED);
  }

  /** It is claimed by a drain and about to be accepted. */
  lemma FirstIsPosted(c: Config) returns (run: seq<State>)
    ensures Run(c, run) && run[|run| - 1] == STORED.(drain := Posting(1, 0, false, [], 1))
  {
    run := FirstIsStored(c);
    run := Then(c, run, Begin([1]), STORED.(drain := Listing([1], 1)));
    assert [1][1..] == [];
    run := Then(c, run, Claim, STORED.(drain := Posting(1, 0, false, [], 1)));
  }

  lemma {:induction false} SumHoldsLast(sizes: seq<nat>)
    requires sizes != []
    ensures Sum(sizes) >= sizes[|sizes| - 1]
  {
    if |sizes| > 1 {
      SumHoldsLast(sizes[1..]);
    }
  }

  /** When the newest file is bigger than the buffer, every file that can be deleted is, the one being sent included. */
  lemma OversizeEmptiesTheDirectory(c: Config, s: State, files: map<Ticks, Batch>, order: seq<Ticks>,
      failing: set<Ticks>)
    requires ListsTicks(order, files.Keys) && order != []
    requires SizesOf(s, files, order)[|order| - 1] > c.maxBytes
    ensures Evicted(c, s, files, order, failing) == files.Keys - failing - Held(c, s.drain)
  {
    var sizes := SizesOf(s, files, order);
    var k := Chosen(sizes, Sum(sizes), c.maxBytes);
    ChosenIsShortest(sizes, c.maxBytes);
    if k < |order| {
      SumHoldsLast(sizes[k..]);
      assert false;
    }
    assert order[..k] == order;
  }

  /** Batch 1, bigger than the buffer, is stored; the file of batch 0 is evicted while it is being sent. */
  lemma FirstIsEvicted(c: Config) returns (run: seq<State>)
    requires !Suits(c)
    ensures Run(c, run)
    ensures run[|run| - 1]
            == START.(clock := 2, hint := 1, sizes := [0, c.largest], drain := Posting(1, 0, false, [], 1))
  {
    run := FirstIsPosted(c);
    var posted := STORED.(drain := Posting(1, 0, false, [], 1));
    var handed := posted.(caller := Deciding(1), sizes := [0, c.largest]);
    var storing := handed.(caller := Storing(1));
    run := Then(c, run, Hand(c.largest), handed);
    assert 1 in handed.files;
    run := Then(c, run, Decide(false), storing);
    var all := storing.files[2 := 1];
    assert all.Keys == {1, 2};
    OversizeEmptiesTheDirectory(c, storing, all, [1, 2], {});
    assert all - Evicted(c, storing, all, [1, 2], {}) == map[];
    run := Then(c, run, Store(2, [1, 2], {}), storing.(caller := Idle, clock := 2, files := map[]));
  }

  /** The run that loses the order: batch 2 overtakes batch 0. */
  lemma OrderCanBeLost(c: Config) returns (run: seq<State>)
    requires !Suits(c)
    ensures Run(c, run) && run[|run| - 1].log == [2, 0]
  {
    run := FirstIsEvicted(c);
    var s := run[|run| - 1].(caller := Deciding(2), sizes := [0, c.largest, 0]);
    run := Then(c, run, Hand(0), s);
    run := Then(c, run, Decide(false), s.(caller := Sending(2, false), hint := 0));
    s := s.(caller := Sending(2, true), hint := 0, log := [2]);
    run := Then(c, run, ServerTakes, s);
    run := Then(c, run, DrainTaken, s.(drain := Posting(1, 0, true, [], 1), log := [2, 0]));
  }

  /** A request in flight at a kill is taken after one of the process that was started next. */
  lemma LateCanOvertake(c: Config) returns (run: seq<State>)
    requires c.late
    ensures Run(c, run) && run[|run| - 1].log == [1, 0]
  {
    var handed := START.(caller := Deciding(0), sizes := [0]);
    run := [START];
    run := Then(c, run, Hand(0), handed);
    run := Then(c, run, Decide(false), handed.(caller := Sending(0, false), hint := 0));
    var again := START.(sizes := [0], late := {0});
    run := Then(c, run, Restart(true), again);
    var s := again.(caller := Deciding(1), sizes := [0, 0]);
    run := Then(c, run, Hand(0), s);
    run := Then(c, run, Decide(false), s.(caller := Sending(1, false), hint := 0));
    s := s.(caller := Sending(1, true), hint := 0, log := [1]);
    run := Then(c, run, ServerTakes, s);
    run := Then(c, run, LateTakes(0), s.(log := [1, 0], late := {}));
  }

  /** Batch 1 is stored after batch 0, still on disk; the circuit is open. */
  lemma SecondIsStored(c: Config) returns (run: seq<State>)
    ensures Run(c, run) && run[|run| - 1] == STORED.(clock := 2, files := map[1 := 0, 2 := 1], sizes := [0, 0])
  {
    run := FirstIsStored(c);
    var storing := STORED.(caller := Storing(1), sizes := [0, 0]);
    run := Then(c, run, Hand(0), storing.(caller := Deciding(1)));
    run := Then(c, run, Decide(true), storing);
    var all := storing.files[2 := 1];
    assert all.Keys == {1, 2};
    assert all - Evicted(c, storing, all, [1, 2], {1, 2}) == all;
    run := Then(c, run, Store(2, [1, 2], {1, 2}), storing.(caller := Idle, clock := 2, files := all));
  }

  /** Both are on disk, the second one accepted by the server while the first could not be opened. */
  const OVERTAKEN := STORED.(clock := 2, files := map[1 := 0, 2 := 1], sizes := [0, 0], log := [1])

  lemma FirstIsPassedOver(c: Config) returns (run: seq<State>)
    requires c.claimsFail
    ensures Run(c, run) && run[|run| - 1] == OVERTAKEN.(log := [], drain := Listing([2], 2))
  {
    run := SecondIsStored(c);
    var s := OVERTAKEN.(log := []);
    assert [1, 2][1..] == [2];
    run := Then(c, run, Begin([1, 2]), s.(drain := Listing([1, 2], 2)));
    run := Then(c, run, PassOver, s.(drain := Listing([2], 2)));
  }

  lemma SecondIsTaken(c: Config) returns (run: seq<State>)
    requires c.claimsFail
    ensures Run(c, run) && run[|run| - 1] == OVERTAKEN
  {
    run := FirstIsPassedOver(c);
    var s := OVERTAKEN.(log := []);
    assert [2][1..] == [];
    run := Then(c, run, Claim, s.(drain := Posting(2, 1, false, [], 2)));
    run := Then(c, run, DrainTaken, OVERTAKEN.(drain := Posting(2, 1, true, [], 2)));
    run := Then(c, run, DrainStop(false), OVERTAKEN);
  }

  /** A drain cannot open the file of batch 0 and sends batch 1; the next drain sends batch 0. */
  lemma PassedOverIsOvertaken(c: Config) returns (run: seq<State>)
    requires c.claimsFail
    ensures Run(c, run) && run[|run| - 1].log == [1, 0]
  {
    run := SecondIsTaken(c);
    assert [1, 2][1..] == [2];
    run := Then(c, run, Begin([1, 2]), OVERTAKEN.(drain := Listing([1, 2], 2)));
    run := Then(c, run, Claim, OVERTAKEN.(drain := Posting(1, 0, false, [2], 2)));
    run := Then(c, run, DrainTaken, OVERTAKEN.(drain := Posting(1, 0, true, [2], 2), log := [1, 0]));
  }

  /**
   The server first accepts batches in hand-over order, in every run, exactly when it takes no request that the
   client has given up, a file that is there can always be opened and, besides, claimed files cannot be deleted or no
   single batch exceeds the buffer limit.
   */
  lemma OrderHoldsExactlyWhen(c: Config)
    ensures OrderHolds(c) <==> !c.late && !c.claimsFail && Suits(c)
  {
    if !c.late && !c.claimsFail && Suits(c) {
      forall run: seq<State>, i: int | Run(c, run) && 0 <= i < |run| ensures InOrder(run[i].log) {
        forall j | 0 <= j < i ensures Keeps(run[j]) {
          NothingIsLate(c, run, j);
        }
        RunKeeps(c, run, i);
      }
    } else {
      var run: seq<State>;
      if c.late {
        run := LateCanOvertake(c);
      } else if c.claimsFail {
        run := PassedOverIsOvertaken(c);
      } else {
        run := OrderCanBeLost(c);
      }
      var log := run[|run| - 1].log;
      assert !NewestIfNew(log, 1) by {
        assert log[..1] == [log[0]];
      }
      assert !InOrder(log);
    }
  }
}
