/** The disk buffer: one file per batch, the oldest evicted beyond a limit. */
module Outbox {
  import opened Wrappers
  import opened Strings

  // ------------------------------------------------------------------ file names

  function FileName(ticks: nat, pid: nat, serial: nat, signal: string): string {
    Padded(ticks, 19) + ("-" + Decimal(pid) + "-" + Serial(serial) + "." + signal + ".gz")
  }

  /** Six digits at least: leading zeros for a small number, every digit of a big one. */
  function Serial(serial: nat): string {
    if serial < Power10(6) then Padded(serial, 6) else Decimal(serial)
  }

  /** Sorting the names sorts the batches by the clock at which they were stored. */
  lemma NamesSortByClock(t: nat, t': nat, pid: nat, pid': nat, n: nat, n': nat, signal: string, signal': string)
    requires t < t' < Power10(19)
    ensures Precedes(FileName(t, pid, n, signal), FileName(t', pid', n', signal'))
  {
    PaddedOrder(t, t', 19);
    PrecedesExtends(Padded(t, 19), Padded(t', 19),
      "-" + Decimal(pid) + "-" + Serial(n) + "." + signal + ".gz",
      "-" + Decimal(pid') + "-" + Serial(n') + "." + signal' + ".gz");
  }

  datatype Entry = Entry(path: string, signal: string)

  /** What Pending reads from a file name: nothing when it has fewer than three parts. */
  function EntriesOf(file: string): seq<Entry> {
    var parts := Split(file, '.');
    if |parts| >= 3 then [Entry(file, parts[|parts| - 2])] else []
  }

  function Stem(ticks: nat, pid: nat, serial: nat): string {
    Padded(ticks, 19) + ("-" + Decimal(pid) + "-" + Serial(serial))
  }

  lemma SerialIsDigits(serial: nat)
    ensures forall c :: c in Serial(serial) ==> IsDigit(c)
    ensures Number(Serial(serial)) == serial
  {
    PaddedIsDigits(serial, 6);
    DecimalIsDigits(serial);
    if serial < Power10(6) { NumberOfPadded(serial, 6); } else { NumberOfDecimal(serial); }
  }

  /** Cut at its hyphens, the first part of a name is its clock, process and counter. */
  lemma StemIsRead(ticks: nat, pid: nat, serial: nat)
    ensures Split(Stem(ticks, pid, serial), '-') == [Padded(ticks, 19), Decimal(pid), Serial(serial)]
    ensures '.' !in Stem(ticks, pid, serial)
  {
    var a, b, c := Padded(ticks, 19), Decimal(pid), Serial(serial);
    PaddedIsDigits(ticks, 19);
    DecimalIsDigits(pid);
    SerialIsDigits(serial);
    SplitOfJoin([a, b, c], '-');
    assert [a, b, c][1..] == [b, c] && [b, c][1..] == [c];
    assert Join([b, c], "-") == b + "-" + c;
    assert Stem(ticks, pid, serial) == a + "-" + (b + "-" + c);
  }

  /** Cut at its dots, a name is that part, the signal and the extension. */
  lemma NameIsRead(ticks: nat, pid: nat, serial: nat, signal: string)
    requires '.' !in signal
    ensures Split(FileName(ticks, pid, serial, signal), '.') == [Stem(ticks, pid, serial), signal, "gz"]
  {
    var stem := Stem(ticks, pid, serial);
    StemIsRead(ticks, pid, serial);
    assert [stem, signal, "gz"][1..] == [signal, "gz"] && [signal, "gz"][1..] == ["gz"];
    assert Join([signal, "gz"], ".") == signal + "." + "gz";
    assert Join([stem, signal, "gz"], ".") == stem + "." + (signal + "." + "gz");
    assert FileName(ticks, pid, serial, signal) == stem + "." + (signal + "." + "gz");
    SplitOfJoin([stem, signal, "gz"], '.');
  }

  /** The signal a batch was stored with is the one it is sent with. */
  lemma SignalSurvives(ticks: nat, pid: nat, serial: nat, signal: string)
    requires '.' !in signal
    ensures EntriesOf(FileName(ticks, pid, serial, signal)) == [Entry(FileName(ticks, pid, serial, signal), signal)]
  {
    NameIsRead(ticks, pid, serial, signal);
  }

  /** Two batches with one file name are of the same process, counter and signal, and of the same clock tick. */
  lemma NameIsUnique(t: nat, t': nat, pid: nat, pid': nat, n: nat, n': nat, signal: string, signal': string)
    requires '.' !in signal && '.' !in signal'
    requires FileName(t, pid, n, signal) == FileName(t', pid', n', signal')
    ensures pid == pid' && n == n' && signal == signal'
    ensures t < Power10(19) && t' < Power10(19) ==> t == t'
  {
    NameIsRead(t, pid, n, signal);
    NameIsRead(t', pid', n', signal');
    var parts, parts' := [Stem(t, pid, n), signal, "gz"], [Stem(t', pid', n'), signal', "gz"];
    assert parts[0] == parts'[0] && parts[1] == parts'[1];
    StemIsRead(t, pid, n);
    StemIsRead(t', pid', n');
    SameStem(t, t', pid, pid', n, n');
  }

  lemma SameStem(t: nat, t': nat, pid: nat, pid': nat, n: nat, n': nat)
    requires [Padded(t, 19), Decimal(pid), Serial(n)] == [Padded(t', 19), Decimal(pid'), Serial(n')]
    ensures pid == pid' && n == n' && (t < Power10(19) && t' < Power10(19) ==> t == t')
  {
    var parts, parts' := [Padded(t, 19), Decimal(pid), Serial(n)], [Padded(t', 19), Decimal(pid'), Serial(n')];
    assert parts[0] == parts'[0] && parts[1] == parts'[1] && parts[2] == parts'[2];
    NumberOfDecimal(pid);
    NumberOfDecimal(pid');
    SerialIsDigits(n);
    SerialIsDigits(n');
    if t < Power10(19) && t' < Power10(19) {
      NumberOfPadded(t, 19);
      NumberOfPadded(t', 19);
    }
  }

  /** The files of this process have counters up to this one. */
  ghost predicate IsUpTo(names: set<string>, pid: nat, serial: nat) {
    forall t: nat, n: nat, signal :: FileName(t, pid, n, signal) in names && '.' !in signal ==> n <= serial
  }

  /** The next name of a process is that of no file there, and the counters go on. */
  lemma NextNameIsNew(names: set<string>, left: set<string>, ticks: nat, pid: nat, serial: nat, signal: string)
    requires IsUpTo(names, pid, serial) && '.' !in signal
    requires left <= names + {FileName(ticks, pid, serial + 1, signal)}
    ensures FileName(ticks, pid, serial + 1, signal) !in names && IsUpTo(left, pid, serial + 1)
  {
    var name := FileName(ticks, pid, serial + 1, signal);
    forall t: nat, n: nat, other | FileName(t, pid, n, other) in left && '.' !in other ensures n <= serial + 1 {
      if FileName(t, pid, n, other) == name {
        NameIsUnique(t, ticks, pid, pid, n, serial + 1, other, signal);
      }
    }
  }

  // ------------------------------------------------------------------ directory order

  predicate Ascending(order: seq<string>) {
    forall i, j :: 0 <= i < j < |order| ==> Precedes(order[i], order[j])
  }

  /** The names of a directory, oldest first. */
  ghost predicate Lists(order: seq<string>, names: set<string>) {
    Ascending(order) && forall n :: n in order <==> n in names
  }

  lemma {:induction false} ListingIsUnique(a: seq<string>, b: seq<string>, names: set<string>)
    requires Lists(a, names) && Lists(b, names)
    ensures a == b
  {
    assert (a == []) == (b == []) by {
      if a != [] { assert a[0] in b; }
      if b != [] { assert b[0] in a; }
    }
    if a != [] {
      assert a[0] in b && b[0] in a;
      PrecedesTotal(a[0], b[0]);
      PrecedesTotal(a[0], a[0]);
      ListingIsUnique(a[1..], b[1..], names - {a[0]});
    }
  }

  method Oldest(names: set<string>) returns (least: string)
    requires names != {}
    ensures least in names && forall n :: n in names && n != least ==> Precedes(least, n)
  {
    least :| least in names;
    var rest := names - {least};
    while rest != {}
      invariant rest <= names && least in names && least !in rest
      invariant forall n :: n in names - rest && n != least ==> Precedes(least, n)
      decreases rest
    {
      var n :| n in rest;
      rest := rest - {n};
      PrecedesTotal(n, least);
      if Precedes(n, least) {
        forall m | m in names - rest && m != n ensures Precedes(n, m) {
          if m != least { PrecedesTransitive(n, least, m); }
        }
        least := n;
      }
    }
  }

  function Entries(order: seq<string>): seq<Entry> {
    if order == [] then [] else Entries(order[..|order| - 1]) + EntriesOf(order[|order| - 1])
  }

  ghost predicate ListsEntries(files: Files, entries: seq<Entry>) {
    exists order :: Lists(order, files.Keys) && entries == Entries(order)
  }

  lemma {:induction false} EntriesAscend(order: seq<string>)
    requires Ascending(order)
    ensures forall e :: e in Entries(order) <==> e.path in order && EntriesOf(e.path) == [e]
    ensures forall i, j :: 0 <= i < j < |Entries(order)| ==> Precedes(Entries(order)[i].path, Entries(order)[j].path)
  {
    if order != [] {
      var front, last := order[..|order| - 1], order[|order| - 1];
      EntriesAscend(front);
      assert order == front + [last];
    }
  }

  method OrderByName(names: set<string>) returns (order: seq<string>)
    ensures Lists(order, names)
  {
    order := [];
    var rest := names;
    while rest != {}
      invariant rest <= names && Lists(order, names - rest)
      invariant forall m, n :: m in order && n in rest ==> Precedes(m, n)
      decreases rest
    {
      var n := Oldest(rest);
      order := order + [n];
      rest := rest - {n};
    }
    assert names - rest == names;
  }

  // ------------------------------------------------------------------ size limit

  function Sum(sizes: seq<nat>): nat {
    if sizes == [] then 0 else sizes[0] + Sum(sizes[1..])
  }

  lemma {:induction false} SumOfPrefix(sizes: seq<nat>, k: nat)
    requires k <= |sizes|
    ensures Sum(sizes) == Sum(sizes[..k]) + Sum(sizes[k..])
  {
    if k == 0 {
      assert sizes[0..] == sizes;
    } else {
      SumOfPrefix(sizes[1..], k - 1);
      assert sizes[..k][1..] == sizes[1..][..k - 1];
      assert sizes[k..] == sizes[1..][k - 1..];
    }
  }

  /** How many of the files, oldest first, EnforceLimit tries to delete. */
  function Chosen(sizes: seq<nat>, total: int, limit: int): (k: nat)
    ensures k <= |sizes|
  {
    if total <= limit || sizes == [] then 0 else 1 + Chosen(sizes[1..], total - sizes[0], limit)
  }

  /** It is the shortest oldest-first prefix that brings the total to the limit. */
  lemma {:induction false} ChosenIsShortest(sizes: seq<nat>, limit: int)
    ensures var k := Chosen(sizes, Sum(sizes), limit);
            && (Sum(sizes[k..]) <= limit || k == |sizes|)
            && forall j: nat :: j < k ==> Sum(sizes[j..]) > limit
  {
    var k := Chosen(sizes, Sum(sizes), limit);
    assert sizes[0..] == sizes;
    if k > 0 {
      ChosenIsShortest(sizes[1..], limit);
      assert sizes[1..][k - 1..] == sizes[k..];
      forall j: nat | j < k ensures Sum(sizes[j..]) > limit {
        if j > 0 { assert sizes[1..][j - 1..] == sizes[j..]; }
      }
    }
  }

  type Files = map<string, seq<char>>

  function Size(files: Files, name: string): nat {
    if name in files then |files[name]| else 0
  }

  function Sizes(files: Files, order: seq<string>): seq<nat> {
    seq(|order|, i requires 0 <= i < |order| => Size(files, order[i]))
  }

  /** The names of `order` that are in `kept`, in their order. */
  function Keep(order: seq<string>, kept: set<string>): seq<string> {
    if order == [] then []
    else if order[0] in kept then [order[0]] + Keep(order[1..], kept)
    else Keep(order[1..], kept)
  }

  /** What the platform refuses: deletions that fail, and deletions that are refused for want of rights. */
  datatype Refusals = Refusals(stuck: set<string>, denied: set<string>)

  /** EnforceLimit's effect on the directory `all`: it goes on after a deletion that fails, not after one denied. */
  ghost predicate Evicts(all: Files, limit: int, r: Refusals, left: Files, order: seq<string>) {
    && Lists(order, all.Keys)
    && left == all - Removed(order[..Tried(all, order, limit, r.denied)], r.stuck)
  }

  ghost predicate Limits(all: Files, limit: int, r: Refusals, left: Files) {
    exists order :: Evicts(all, limit, r, left, order)
  }

  ghost predicate Stores(files: Files, name: string, data: seq<char>, limit: int, r: Refusals, left: Files) {
    Limits(files[name := data], limit, r, left)
  }

  lemma LeftAreThere(all: Files, limit: int, r: Refusals, left: Files)
    requires Limits(all, limit, r, left)
    ensures left.Keys <= all.Keys && forall n :: n in left ==> left[n] == all[n]
  {
  }

  /** How many names come before the first one denied. */
  function Before(names: seq<string>, denied: set<string>): (t: nat)
    ensures t <= |names| && (t < |names| ==> names[t] in denied)
    ensures forall i :: 0 <= i < t ==> names[i] !in denied
  {
    if names == [] || names[0] in denied then 0 else 1 + Before(names[1..], denied)
  }

  lemma {:induction false} BeforeIs(names: seq<string>, denied: set<string>, t: nat)
    requires t <= |names| && (t < |names| ==> names[t] in denied)
    requires forall i :: 0 <= i < t ==> names[i] !in denied
    ensures Before(names, denied) == t
  {
  }

  /** How many of the chosen files are tried before a deletion is denied. */
  function Tried(all: Files, order: seq<string>, limit: int, denied: set<string>): (t: nat)
    ensures t <= ChosenOf(all, order, limit)
  {
    Before(order[..ChosenOf(all, order, limit)], denied)
  }

  function ChosenOf(all: Files, order: seq<string>, limit: int): (k: nat)
    ensures k <= |order|
  {
    Chosen(Sizes(all, order), Sum(Sizes(all, order)), limit)
  }

  function Removed(names: seq<string>, stuck: set<string>): set<string> {
    (set n | n in names) - stuck
  }

  lemma {:induction false} KeepAll(order: seq<string>, kept: set<string>)
    requires forall n :: n in order ==> n in kept
    ensures Keep(order, kept) == order
  {
    if order != [] {
      KeepAll(order[1..], kept);
    }
  }

  lemma {:induction false} KeepConcat(a: seq<string>, b: seq<string>, kept: set<string>)
    ensures Keep(a + b, kept) == Keep(a, kept) + Keep(b, kept)
  {
    if a == [] {
      assert a + b == b;
    } else {
      KeepConcat(a[1..], b, kept);
      assert (a + b)[1..] == a[1..] + b;
    }
  }

  lemma {:induction false} KeepSame(order: seq<string>, kept: set<string>, kept': set<string>)
    requires forall n :: n in order ==> (n in kept <==> n in kept')
    ensures Keep(order, kept) == Keep(order, kept')
  {
    if order != [] {
      KeepSame(order[1..], kept, kept');
    }
  }

  lemma SizesConcat(files: Files, a: seq<string>, b: seq<string>)
    ensures Sum(Sizes(files, a + b)) == Sum(Sizes(files, a)) + Sum(Sizes(files, b))
  {
    SumOfPrefix(Sizes(files, a + b), |a|);
    assert Sizes(files, a + b)[..|a|] == Sizes(files, a);
    assert Sizes(files, a + b)[|a|..] == Sizes(files, b);
  }

  lemma ListedOnce(order: seq<string>, k: nat, n: string)
    requires Ascending(order) && k <= |order| && n in order[k..]
    ensures n !in order[..k]
  {
    if n in order[..k] {
      var i :| 0 <= i < k && order[i] == n;
      var j :| k <= j < |order| && order[j] == n;
      PrecedesTotal(order[i], order[j]);
    }
  }

  lemma Halves(order: seq<string>, k: nat)
    requires k <= |order|
    ensures order[..k] + order[k..] == order
  {
  }

  lemma LeftAfterEviction(all: Files, order: seq<string>, k: nat, stuck: set<string>, left: Files)
    requires Lists(order, all.Keys) && k <= |order|
    requires left == all - Removed(order[..k], stuck)
    ensures Keep(order, left.Keys) == Keep(order[..k], stuck) + order[k..]
  {
    forall n | n in order[k..] ensures n in left.Keys {
      assert n in order;
      ListedOnce(order, k, n);
    }
    forall n | n in order[..k] ensures n in left.Keys <==> n in stuck {
      assert n in order;
    }
    KeepSame(order[..k], left.Keys, stuck);
    KeepAll(order[k..], left.Keys);
    KeepConcat(order[..k], order[k..], left.Keys);
    Halves(order, k);
  }

  lemma SizesOfRest(files: Files, order: seq<string>, k: nat)
    requires k <= |order|
    ensures Sizes(files, order[k..]) == Sizes(files, order)[k..]
  {
  }

  lemma EvictedUpTo(all: Files, order: seq<string>, limit: int, r: Refusals, i: nat)
    requires Lists(order, all.Keys) && i <= ChosenOf(all, order, limit)
    requires i < ChosenOf(all, order, limit) ==> order[i] in r.denied
    requires forall j :: 0 <= j < i ==> order[j] !in r.denied
    ensures Limits(all, limit, r, all - Removed(order[..i], r.stuck))
  {
    BeforeIs(order[..ChosenOf(all, order, limit)], r.denied, i);
    assert Evicts(all, limit, r, all - Removed(order[..i], r.stuck), order);
  }

  /** The files chosen for deletion are the shortest oldest-first prefix that brings the bytes to the limit. */
  lemma EvictionIsShortestPrefix(all: Files, order: seq<string>, limit: int)
    ensures var k := ChosenOf(all, order, limit);
            && (Sum(Sizes(all, order[k..])) <= limit || k == |order|)
            && forall j: nat :: j < k ==> Sum(Sizes(all, order[j..])) > limit
  {
    var sizes := Sizes(all, order);
    var k := ChosenOf(all, order, limit);
    ChosenIsShortest(sizes, limit);
    SizesOfRest(all, order, k);
    forall j: nat | j < k ensures Sum(Sizes(all, order[j..])) > limit {
      SizesOfRest(all, order, j);
    }
  }

  /** The chosen files that were tried in vain, the one denied included. */
  function Failed(all: Files, order: seq<string>, limit: int, r: Refusals): seq<string> {
    var k, t := ChosenOf(all, order, limit), Tried(all, order, limit, r.denied);
    Keep(order[..t], r.stuck) + if t < k then [order[t]] else []
  }

  /** What follows the files that were tried. */
  function Untried(all: Files, order: seq<string>, limit: int, denied: set<string>): seq<string> {
    var k, t := ChosenOf(all, order, limit), Tried(all, order, limit, denied);
    if t < k then order[t + 1..] else order[k..]
  }

  function BytesLeft(all: Files, left: Files, order: seq<string>): nat {
    Sum(Sizes(all, Keep(order, left.Keys)))
  }

  lemma LeftIsFailedAndUntried(all: Files, limit: int, r: Refusals, left: Files, order: seq<string>)
    requires Evicts(all, limit, r, left, order)
    ensures BytesLeft(all, left, order) ==
      Sum(Sizes(all, Failed(all, order, limit, r))) + Sum(Sizes(all, Untried(all, order, limit, r.denied)))
  {
    var k, t := ChosenOf(all, order, limit), Tried(all, order, limit, r.denied);
    var failed, untried := Failed(all, order, limit, r), Untried(all, order, limit, r.denied);
    LeftAfterEviction(all, order, t, r.stuck, left);
    assert Keep(order, left.Keys) == failed + untried;
    SizesConcat(all, failed, untried);
  }

  /** No chosen file but the last one is denied. */
  predicate OnlyLastIsDenied(all: Files, order: seq<string>, limit: int, denied: set<string>) {
    forall i :: 0 <= i < ChosenOf(all, order, limit) - 1 ==> order[i] !in denied
  }

  /** If at most the last chosen file is denied, what is left exceeds the limit by no more than what failed. */
  lemma EvictionMeetsLimit(all: Files, limit: int, r: Refusals, left: Files, order: seq<string>)
    requires Evicts(all, limit, r, left, order) && OnlyLastIsDenied(all, order, limit, r.denied)
    ensures BytesLeft(all, left, order) <= Max(limit, 0) + Sum(Sizes(all, Failed(all, order, limit, r)))
  {
    var k, t := ChosenOf(all, order, limit), Tried(all, order, limit, r.denied);
    EvictionIsShortestPrefix(all, order, limit);
    LeftIsFailedAndUntried(all, limit, r, left, order);
    assert t < k ==> order[..k][t] == order[t] && t == k - 1;
    assert k == |order| ==> Sizes(all, order[k..]) == [];
  }

  /** The limit is met, but for the files whose deletion failed, exactly when at most the last chosen file is denied. */
  lemma EvictionMeetsLimitExactlyWhen(all: Files, limit: nat, r: Refusals, left: Files, order: seq<string>)
    requires Evicts(all, limit, r, left, order)
    ensures BytesLeft(all, left, order) <= limit + Sum(Sizes(all, Failed(all, order, limit, r)))
       <==> OnlyLastIsDenied(all, order, limit, r.denied)
  {
    if OnlyLastIsDenied(all, order, limit, r.denied) {
      EvictionMeetsLimit(all, limit, r, left, order);
    } else {
      var k, t := ChosenOf(all, order, limit), Tried(all, order, limit, r.denied);
      var i :| 0 <= i < k - 1 && order[i] in r.denied;
      assert order[..k][i] == order[i];
      EvictionIsShortestPrefix(all, order, limit);
      LeftIsFailedAndUntried(all, limit, r, left, order);
    }
  }

  const EIGHT := "12345678"

  lemma ThreeEights()
    ensures Sum([8, 8, 8]) == 24
  {
    assert [8, 8, 8][1..] == [8, 8] && [8, 8][1..] == [8] && [8][1..] == [];
  }

  /** Three files of 8 bytes and a limit of 10: if the oldest is denied, all three stay. */
  lemma DeniedFileStopsEviction(left: Files)
    requires var all := map["1" := EIGHT, "2" := EIGHT, "3" := EIGHT];
      Evicts(all, 10, Refusals({}, {"1"}), left, ["1", "2", "3"])
    ensures left == map["1" := EIGHT, "2" := EIGHT, "3" := EIGHT]
    ensures BytesLeft(left, left, ["1", "2", "3"]) == 24
  {
    var order := ["1", "2", "3"];
    KeepAll(order, left.Keys);
    assert Sizes(left, order) == [8, 8, 8];
    ThreeEights();
  }

  lemma ChosenStep(sizes: seq<nat>, i: nat, total: int, limit: int)
    requires i < |sizes| && total > limit
    ensures Chosen(sizes[i..], total, limit) == 1 + Chosen(sizes[i + 1..], total - sizes[i], limit)
  {
    assert sizes[i..][1..] == sizes[i + 1..];
  }

  lemma RemovedStep(all: Files, order: seq<string>, i: nat, stuck: set<string>)
    requires i < |order|
    ensures all - Removed(order[..i + 1], stuck)
         == if order[i] in stuck then all - Removed(order[..i], stuck)
            else all - Removed(order[..i], stuck) - {order[i]}
  {
    assert order[..i + 1] == order[..i] + [order[i]];
  }

  lemma PrefixSum(sizes: seq<nat>, i: nat)
    requires i < |sizes|
    ensures Sum(sizes[..i + 1]) == Sum(sizes[..i]) + sizes[i]
  {
    SumOfPrefix(sizes[..i + 1], i);
    assert sizes[..i + 1][..i] == sizes[..i];
    assert sizes[..i + 1][i..] == [sizes[i]];
  }

  method Lengths(files: Files, order: seq<string>) returns (lengths: seq<nat>, total: int)
    ensures lengths == Sizes(files, order) && total == Sum(lengths)
  {
    lengths := Sizes(files, order);
    total := 0;
    for i := 0 to |lengths|
      invariant total == Sum(lengths[..i])
    {
      PrefixSum(lengths, i);
      total := total + lengths[i];
    }
    assert lengths[..|lengths|] == lengths;
  }

  // ------------------------------------------------------------------ the outbox of one process

  /** Files are in the directory of this process alone; the contents of a file are abstracted to text. */
  class DiskOutbox {
    const maxBytes: int
    var files: map<string, seq<char>>
    var serial: nat
    var hint: int

    /** A hint of 0 is trusted without looking: the directory is then empty. */
    ghost predicate Valid()
      reads this
    {
      hint in {-1, 0, 1} && (hint == 0 ==> files == map[])
    }

    constructor (maxBytes: int, found: map<string, seq<char>>)
      ensures Valid() && files == found && this.maxBytes == maxBytes && serial == 0
    {
      this.maxBytes := maxBytes;
      files := found;
      serial := 0;
      hint := -1;
    }

    method HasPending() returns (any: bool)
      requires Valid()
      modifies this`hint
      ensures Valid() && (any <==> files != map[])
    {
      if hint == 0 { return false; }
      any := files != map[];
      hint := if any then 1 else 0;
    }

    method EnforceLimit(r: Refusals)
      modifies this`files
      ensures Limits(old(files), maxBytes, r, files)
    {
      // the lengths are those of the moment the directory was listed
      var order := OrderByName(files.Keys);
      ghost var all, sizes := files, Sizes(files, order);
      var lengths, total := Lengths(files, order);
      assert sizes[0..] == sizes;
      ghost var chosen := ChosenOf(all, order, maxBytes);
      assert all - Removed(order[..0], r.stuck) == all;
      hide Removed, Sum, Keep, Precedes, Limits;
      var i := 0;
      while i < |order| && total > maxBytes
        invariant 0 <= i <= |order| == |lengths|
        invariant chosen == i + Chosen(sizes[i..], total, maxBytes)
        invariant files == all - Removed(order[..i], r.stuck)
        invariant forall j :: 0 <= j < i ==> order[j] !in r.denied
      {
        var f := order[i];
        ChosenStep(sizes, i, total, maxBytes);
        RemovedStep(all, order, i, r.stuck);
        total := total - lengths[i];
        if f in r.denied { break; }
        if f !in r.stuck {
          files := files - {f};
        }
        i := i + 1;
      }
      EvictedUpTo(all, order, maxBytes, r, i);
    }

    /** `written`: whether the file can be written; if not, the batch is given up. */
    method Store(ticks: nat, pid: nat, signal: string, data: seq<char>, written: bool, r: Refusals)
      returns (name: string)
      requires Valid()
      modifies this
      ensures Valid() && serial == old(serial) + 1
      ensures hint == if written then 1 else old(hint)
      ensures name == FileName(ticks, pid, serial, signal)
      ensures if written then Stores(old(files), name, data, maxBytes, r, files) else files == old(files)
      ensures written && IsUpTo(old(files.Keys), pid, old(serial)) && '.' !in signal ==>
        name !in old(files) && IsUpTo(files.Keys, pid, serial)
      ensures forall n :: n in files && n != name ==> n in old(files) && files[n] == old(files[n])
    {
      ghost var before, drawn := files, serial;
      serial := serial + 1;
      name := FileName(ticks, pid, serial, signal);
      if written {
        files := files[name := data];
        hint := 1;
        EnforceLimit(r);
        LeftAreThere(before[name := data], maxBytes, r, files);
        if IsUpTo(before.Keys, pid, drawn) && '.' !in signal {
          NextNameIsNew(before.Keys, files.Keys, ticks, pid, drawn, signal);
        }
      }
    }

    /** The batches to send again, oldest first. */
    method Pending() returns (entries: seq<Entry>)
      requires Valid()
      ensures ListsEntries(files, entries)
    {
      var order := OrderByName(files.Keys);
      entries := [];
      for i := 0 to |order|
        invariant entries == Entries(order[..i])
      {
        assert order[..i + 1][..i] == order[..i];
        entries := entries + EntriesOf(order[i]);
      }
      assert order[..|order|] == order;
    }

    /** The end of a listing makes the next HasPending look again. */
    method Listed()
      requires Valid()
      modifies this`hint
      ensures Valid() && hint == -1
    {
      hint := -1;
    }

    /** A complete claim deletes its file; a deletion that fails leaves it. */
    method Complete(path: string, deleted: bool)
      requires Valid()
      modifies this`files
      ensures Valid() && files == if deleted then old(files) - {path} else old(files)
    {
      if deleted {
        files := files - {path};
      }
    }
  }
}
