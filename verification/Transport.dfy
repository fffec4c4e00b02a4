/** Delivery by one process: what each call does to the outbox, the circuit and the counters. */
module Transport {
  import opened Strings
  import opened Outbox
  import opened Delivery

  const PAUSE: nat := 10

  /**
   What becomes of a waiting batch when its turn comes: its file is not claimed; the drain is cancelled, or cannot read
   the file; or the batch is sent.
   */
  datatype Fate = Passed | Cancelled | Sent(answer: SendResult, deletion: Deletion)

  /** Deleting the file of a batch that is sent may fail, or be denied for want of rights. */
  datatype Deletion = Deleted | Kept | Denied

  predicate Stops(f: Fate) {
    f.Cancelled? || (f.Sent? && (f.answer == Retry || f.deletion == Denied))
  }

  /** How many batches a drain passes or settles before the first one that stops it. */
  function Leading(fates: seq<Fate>): (k: nat)
    ensures k <= |fates|
    ensures forall i :: 0 <= i < k ==> !Stops(fates[i])
    ensures k < |fates| ==> Stops(fates[k])
  {
    if fates == [] || Stops(fates[0]) then 0 else 1 + Leading(fates[1..])
  }

  /** How many of the batches a drain looks at: those, and the one that stops it. */
  function Reached(fates: seq<Fate>): (n: nat)
    ensures n <= |fates|
    ensures forall i :: 0 <= i < n - 1 ==> !Stops(fates[i])
    ensures n < |fates| ==> n > 0 && Stops(fates[n - 1])
  {
    if Leading(fates) < |fates| then Leading(fates) + 1 else |fates|
  }

  /** How many of the batches had this answer. */
  function Count(fates: seq<Fate>, answer: SendResult): nat {
    if fates == [] then 0
    else
      Count(fates[..|fates| - 1], answer) + One(fates[|fates| - 1], answer)
  }

  function One(f: Fate, answer: SendResult): nat {
    if f.Sent? && f.answer == answer then 1 else 0
  }

  /** The places of the batches that had this answer. */
  function Answered(fates: seq<Fate>, answer: SendResult): set<nat> {
    set i: nat | i < |fates| && fates[i].Sent? && fates[i].answer == answer
  }

  lemma {:induction false} CountIs(fates: seq<Fate>, answer: SendResult)
    ensures Count(fates, answer) == |Answered(fates, answer)|
  {
    if fates != [] {
      var last := |fates| - 1;
      var before := Answered(fates[..last], answer);
      CountIs(fates[..last], answer);
      if fates[last].Sent? && fates[last].answer == answer {
        assert Answered(fates, answer) == before + {last};
      } else {
        assert Answered(fates, answer) == before;
      }
    }
  }

  lemma CountStep(fates: seq<Fate>, i: nat)
    requires i < |fates|
    ensures forall a :: Count(fates[..i + 1], a) == Count(fates[..i], a) + One(fates[i], a)
  {
    assert fates[..i + 1][..i] == fates[..i];
  }

  /** The files of the first n entries that are deleted. */
  function Gone(entries: seq<Entry>, fates: seq<Fate>, n: nat): set<string>
    requires n <= |entries| == |fates|
  {
    set i | 0 <= i < n && fates[i].Sent? && fates[i].deletion == Deleted :: entries[i].path
  }

  /** The directory once the first n entries are dealt with. */
  function Left(files: Files, entries: seq<Entry>, fates: seq<Fate>, n: nat): Files
    requires n <= |entries| == |fates|
  {
    if n == 0 then files else WithoutSent(Left(files, entries, fates, n - 1), entries[n - 1].path, fates[n - 1])
  }

  function WithoutSent(files: Files, path: string, fate: Fate): Files {
    if fate.Sent? && fate.deletion == Deleted then files - {path} else files
  }

  lemma LeftStep(files: Files, entries: seq<Entry>, fates: seq<Fate>, i: nat)
    requires i < |entries| == |fates|
    ensures Left(files, entries, fates, i + 1) == WithoutSent(Left(files, entries, fates, i), entries[i].path, fates[i])
  {
  }

  lemma {:induction false} LeftIsTheRest(files: Files, entries: seq<Entry>, fates: seq<Fate>, n: nat)
    requires n <= |entries| == |fates|
    ensures Left(files, entries, fates, n) == files - Gone(entries, fates, n)
  {
    if n == 0 {
      assert Gone(entries, fates, 0) == {};
    } else {
      LeftIsTheRest(files, entries, fates, n - 1);
      var before, after, last := Gone(entries, fates, n - 1), Gone(entries, fates, n), fates[n - 1];
      if last.Sent? && last.deletion == Deleted {
        assert after == before + {entries[n - 1].path};
      } else {
        assert after == before;
      }
    }
  }

  /** Drained; left by an exception; or the server has to wait. */
  datatype Drained = Through | Interrupted | Unavailable

  function OutcomeOf(fates: seq<Fate>): Drained {
    var k := Leading(fates);
    if k == |fates| then Through
    else if fates[k].Sent? && fates[k].answer == Retry then Unavailable
    else Interrupted
  }

  /** The server asks to send this batch again, and no batch before it ends the drain. */
  predicate IsRefused(fates: seq<Fate>, k: nat) {
    k < |fates| && fates[k].Sent? && fates[k].answer == Retry && forall i :: 0 <= i < k ==> !Stops(fates[i])
  }

  /** A drain gets through when nothing ends it, and finds the server unavailable when a request to send again does. */
  lemma OutcomeExactlyWhen(fates: seq<Fate>)
    ensures OutcomeOf(fates) == Through <==> forall i :: 0 <= i < |fates| ==> !Stops(fates[i])
    ensures OutcomeOf(fates) == Unavailable <==> exists k :: IsRefused(fates, k)
  {
    var k := Leading(fates);
    if OutcomeOf(fates) == Unavailable {
      assert IsRefused(fates, k);
    }
  }

  lemma NothingCounts(files: Files, entries: seq<Entry>, fates: seq<Fate>)
    requires |entries| == |fates|
    ensures Left(files, entries, fates, 0) == files && Count(fates[..0], Ok) == Count(fates[..0], Drop) == 0
  {
  }

  class WolflogTransport {
    const outbox: DiskOutbox
    var unavailableUntil: nat
    var sentBatches: nat
    var bufferedBatches: nat
    var droppedBatches: nat

    constructor (outbox: DiskOutbox)
      ensures this.outbox == outbox && unavailableUntil == 0
      ensures sentBatches == bufferedBatches == droppedBatches == 0
    {
      this.outbox := outbox;
      unavailableUntil, sentBatches, bufferedBatches, droppedBatches := 0, 0, 0, 0;
    }

    /** `answer`: what sending the batch would give now. A failure opens the circuit for ten seconds. */
    method Send(now: nat, answer: SendResult) returns (result: SendResult)
      modifies this`unavailableUntil
      ensures result == answer
      ensures unavailableUntil == if answer == Retry then now + PAUSE else old(unavailableUntil)
    {
      result := answer;
      if result == Retry {
        unavailableUntil := now + PAUSE;
      }
    }

    /**
     A batch is sent at once only when the circuit is closed and nothing older is waiting; otherwise, or when
     sending fails, it is stored. It is counted exactly once.
     */
    method Deliver(now: nat, pid: nat, signal: string, data: seq<char>, answer: SendResult, written: bool,
        r: Refusals) returns (result: SendResult)
      requires outbox.Valid()
      modifies this, outbox
      ensures outbox.Valid()
      ensures result == if now < old(unavailableUntil) || old(outbox.files) != map[] then Retry else answer
      ensures unavailableUntil == if !(now < old(unavailableUntil)) && old(outbox.files) == map[] && answer == Retry
                                  then now + PAUSE else old(unavailableUntil)
      ensures result != Retry || !written ==> outbox.files == old(outbox.files)
      ensures result == Retry && written ==>
        Stores(old(outbox.files), FileName(now, pid, old(outbox.serial) + 1, signal), data, outbox.maxBytes, r,
          outbox.files)
      ensures IsUpTo(old(outbox.files.Keys), pid, old(outbox.serial)) && '.' !in signal ==>
        FileName(now, pid, old(outbox.serial) + 1, signal) !in old(outbox.files)
        && IsUpTo(outbox.files.Keys, pid, outbox.serial)
      ensures sentBatches == old(sentBatches) + if result == Ok then 1 else 0
      ensures bufferedBatches == old(bufferedBatches) + if result == Retry then 1 else 0
      ensures droppedBatches == old(droppedBatches) + if result == Drop then 1 else 0
    {
      var wait := now < unavailableUntil;
      if !wait {
        wait := outbox.HasPending();
      }
      result := Retry;
      if !wait {
        result := Send(now, answer);
      }
      match result
      case Ok => sentBatches := sentBatches + 1;
      case Retry =>
        var name := outbox.Store(now, pid, signal, data, written, r);
        bufferedBatches := bufferedBatches + 1;
      case Drop => droppedBatches := droppedBatches + 1;
    }

    /** A round of the drain: nothing happens to the outbox unless the batch is sent and settled. */
    method Settle(now: nat, path: string, fate: Fate)
      requires outbox.Valid()
      modifies this, outbox
      ensures outbox.Valid()
      ensures outbox.files == if Stops(fate) then old(outbox.files) else WithoutSent(old(outbox.files), path, fate)
      ensures sentBatches == old(sentBatches) + One(fate, Ok) && droppedBatches == old(droppedBatches) + One(fate, Drop)
      ensures unavailableUntil == if fate.Sent? && fate.answer == Retry then now + PAUSE else old(unavailableUntil)
    {
      if fate.Sent? {
        var result := Send(now, fate.answer);
        if result != Retry {
          outbox.Complete(path, fate.deletion == Deleted);
        }
        match result
        case Ok => sentBatches := sentBatches + 1;
        case Retry =>
        case Drop => droppedBatches := droppedBatches + 1;
      }
    }

    /** The loop over the waiting batches. */
    method SendEach(now: nat, entries: seq<Entry>, fates: seq<Fate>) returns (drained: Drained)
      requires outbox.Valid() && |fates| == |entries|
      modifies this, outbox
      ensures outbox.Valid() && outbox.files == Left(old(outbox.files), entries, fates, Leading(fates))
      ensures drained == OutcomeOf(fates)
      ensures unavailableUntil == if drained == Unavailable then now + PAUSE else old(unavailableUntil)
      ensures sentBatches == old(sentBatches) + Count(fates[..Reached(fates)], Ok)
      ensures droppedBatches == old(droppedBatches) + Count(fates[..Reached(fates)], Drop)
    {
      ghost var before := outbox.files;
      hide Count, One, Left, WithoutSent;
      NothingCounts(before, entries, fates);
      var i := 0;
      while i < |entries|
        invariant 0 <= i <= Leading(fates)
        invariant outbox.Valid() && outbox.files == Left(before, entries, fates, i)
        invariant unavailableUntil == old(unavailableUntil)
        invariant sentBatches == old(sentBatches) + Count(fates[..i], Ok)
        invariant droppedBatches == old(droppedBatches) + Count(fates[..i], Drop)
      {
        CountStep(fates, i);
        LeftStep(before, entries, fates, i);
        Settle(now, entries[i].path, fates[i]);
        if Stops(fates[i]) {
          return if fates[i].Sent? && fates[i].answer == Retry then Unavailable else Interrupted;
        }
        i := i + 1;
      }
      return Through;
    }

    /**
     `fates`: what becomes of the i-th waiting batch. A drain looks at a prefix of the waiting batches, oldest first:
     all those before the first one that must be sent again, or at which an exception ends it. Of these it deletes the
     ones that were sent, and none other.
     */
    method Drain(now: nat, ghost all: seq<Entry>, fates: seq<Fate>) returns (drained: Drained)
      requires outbox.Valid()
      requires ListsEntries(outbox.files, all) && |fates| == |all|
      modifies this, outbox
      ensures outbox.Valid() && outbox.files == old(outbox.files) - Gone(all, fates, Leading(fates))
      ensures drained == OutcomeOf(fates)
      ensures unavailableUntil == match drained
                                  case Through => 0
                                  case Interrupted => old(unavailableUntil)
                                  case Unavailable => now + PAUSE
      ensures sentBatches == old(sentBatches) + Count(fates[..Reached(fates)], Ok)
      ensures droppedBatches == old(droppedBatches) + Count(fates[..Reached(fates)], Drop)
    {
      var entries := outbox.Pending();
      EntriesAreUnique(outbox.files, entries, all);
      LeftIsTheRest(outbox.files, all, fates, Leading(fates));
      drained := SendEach(now, entries, fates);
      if drained == Through {
        outbox.Listed();
        unavailableUntil := 0;
      }
    }
  }

  /** The batch that the server asks to send again, and all after it, keep their files. */
  lemma RestIsKept(files: Files, entries: seq<Entry>, fates: seq<Fate>, i: nat, j: nat)
    requires ListsEntries(files, entries) && |fates| == |entries| && i <= j < |entries|
    requires fates[i].Cancelled? || (fates[i].Sent? && fates[i].answer == Retry)
    ensures entries[j].path in files - Gone(entries, fates, Leading(fates))
  {
    var order :| Lists(order, files.Keys) && entries == Entries(order);
    EntriesAscend(order);
    assert entries[j] in entries;
    forall k | 0 <= k < Leading(fates) ensures entries[k].path != entries[j].path {
      PrecedesTotal(entries[k].path, entries[j].path);
    }
  }

  /** The names of the step relation and those of files stand for each other. */
  lemma NamesStandForFiles(a: Name, b: Name, signal: string, signal': string)
    requires a.ticks < Power10(19) && b.ticks < Power10(19) && '.' !in signal && '.' !in signal'
    ensures FileName(a.ticks, a.pid, a.serial, signal) == FileName(b.ticks, b.pid, b.serial, signal')
       <==> a == b && signal == signal'
  {
    if FileName(a.ticks, a.pid, a.serial, signal) == FileName(b.ticks, b.pid, b.serial, signal') {
      NameIsUnique(a.ticks, b.ticks, a.pid, b.pid, a.serial, b.serial, signal, signal');
    }
  }

  lemma EntriesAreUnique(files: Files, a: seq<Entry>, b: seq<Entry>)
    requires ListsEntries(files, a) && ListsEntries(files, b)
    ensures a == b
  {
    var m :| Lists(m, files.Keys) && a == Entries(m);
    var n :| Lists(n, files.Keys) && b == Entries(n);
    ListingIsUnique(m, n, files.Keys);
  }
}
