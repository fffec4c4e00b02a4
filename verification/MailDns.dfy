/**
 DNS messages (RFC 1035, section 4.1): building a query, reading names and records. A message is a sequence of bytes;
 what stands in it is told byte by byte, and the readers are proved to find exactly that.
 */
module MailDns {
  import opened Wrappers
  import opened Strings

  newtype byte = x: int | 0 <= x < 256

  type Message = seq<byte>

  const MX: int := 15
  const TXT: int := 16
  const SRV: int := 33

  datatype Record = Record(priority: int, weight: int, port: int, value: string)

  /** The two low bytes of a number, high byte first. */
  function U16(v: int): Message {
    [((v / 256) % 256) as byte, (v % 256) as byte]
  }

  /** A big-endian number of two bytes. */
  function ReadU16(m: Message, at: nat): nat
    requires at + 2 <= |m|
  {
    m[at] as int * 256 + m[at + 1] as int
  }

  // ------------------------------------------------------------------ names

  /** ASCII decoding: a byte above 127 becomes a question mark. */
  function CharOf(b: byte): char {
    if b < 128 then b as int as char else '?'
  }

  function TextOf(bytes: Message): (s: string)
    ensures |s| == |bytes|
  {
    seq(|bytes|, i requires 0 <= i < |bytes| => CharOf(bytes[i]))
  }

  /** `count` bytes of a message. */
  function Bytes(m: Message, from: nat, count: nat): Message
    requires from + count <= |m|
    decreases count
  {
    if count == 0 then [] else [m[from]] + Bytes(m, from + 1, count - 1)
  }

  predicate StandsAt(m: Message, p: nat, bytes: Message) {
    p + |bytes| <= |m| && forall i :: 0 <= i < |bytes| ==> bytes[i] == m[p + i]
  }

  lemma {:induction false} BytesAreRead(m: Message, p: nat, bytes: Message)
    requires StandsAt(m, p, bytes)
    ensures Bytes(m, p, |bytes|) == bytes
    decreases |bytes|
  {
    if bytes != [] {
      BytesAreRead(m, p + 1, bytes[1..]);
    }
  }

  function Least(a: nat, b: nat): nat {
    if a < b then a else b
  }

  /** What stands at one offset inside a name. */
  datatype Piece = Terminator | Pointer(target: nat) | Cut | Part(bytes: Message, after: nat)

  function PieceAt(m: Message, p: nat): Piece
    requires p < |m|
  {
    var len := m[p] as int;
    if len == 0 then Terminator
    else if len >= 192 then
      if p + 1 >= |m| then Cut else Pointer((len - 192) * 256 + m[p + 1] as int)
    else Part(Bytes(m, p + 1, Least(len, |m| - p - 1)), p + len + 1)
  }

  /** The labels of a name and the offset after it; NoName where the program reads past the end and throws. */
  datatype Name = NoName | Name(labels: seq<Message>, next: nat)

  /** The rounds of ReadName from offset p on; `at`: the offset to return once a pointer was followed. */
  function Labels(m: Message, p: nat, guard: nat, jumped: bool, at: nat, labels: seq<Message>): Name
    decreases 128 - guard
  {
    if guard >= 128 || p >= |m| then Name(labels, if jumped then at else p)
    else
      match PieceAt(m, p)
      case Terminator => Name(labels, if jumped then at else p + 1)
      case Cut => NoName
      case Pointer(target) => Labels(m, target, guard + 1, true, if jumped then at else p + 2, labels)
      case Part(bytes, after) => Labels(m, after, guard + 1, jumped, at, labels + [bytes])
  }

  function NameAt(m: Message, at: nat): Name {
    Labels(m, at, 0, false, at, [])
  }

  function Texts(labels: seq<Message>): seq<string> {
    seq(|labels|, i requires 0 <= i < |labels| => TextOf(labels[i]))
  }

  /** Labels as a host name: joined by dots, in small letters. */
  function HostName(labels: seq<Message>): string {
    Lower(Join(Texts(labels), "."))
  }

  /** What ReadName returns; Thrown for an exception. */
  datatype Reading = Thrown | Reading(text: string, next: nat)

  function ReadingOf(name: Name): Reading {
    if name.NoName? then Thrown else Reading(HostName(name.labels), name.next)
  }

  method ReadName(m: Message, at: nat) returns (name: Reading)
    ensures name == ReadingOf(NameAt(m, at))
  {
    var labels: seq<string> := [];
    ghost var raw: seq<Message> := [];
    var p: nat, jumped := at, false;
    var next: nat := at;
    var guard := 0;
    ghost var all := NameAt(m, at);
    while guard < 128 && p < |m|
      invariant guard <= 128
      invariant labels == Texts(raw)
      invariant all == Labels(m, p, guard, jumped, next, raw)
    {
      var len := m[p] as int;
      if len == 0 {
        p := p + 1;
        break;
      }
      if len >= 192 {
        if p + 1 >= |m| {
          return Thrown;
        }
        if !jumped { next := p + 2; }
        jumped := true;
        p := (len - 192) * 256 + m[p + 1] as int;
      } else {
        var bytes := Bytes(m, p + 1, Least(len, |m| - p - 1));
        labels := labels + [TextOf(bytes)];
        raw := raw + [bytes];
        p := p + len + 1;
      }
      guard := guard + 1;
    }
    assert all == Name(raw, if jumped then next else p);
    if !jumped { next := p; }
    name := Reading(Lower(Join(labels, ".")), next);
  }

  // ------------------------------------------------------------------ well-formed names

  predicate IsLabel(bytes: Message) {
    1 <= |bytes| <= 63 && forall b :: b in bytes ==> b < 128
  }

  /**
   Section 4.1.4 of RFC 1035: at offset p stands a name made of `labels`, written in `steps` labels and pointers;
   pointers lead backwards. `end`: the offset after the first pointer or the terminator.
   */
  ghost predicate Encodes(m: Message, p: nat, labels: seq<Message>, steps: nat, end: nat)
    decreases steps, 0
  {
    p < |m|
    && if m[p] == 0 then labels == [] && steps == 0 && end == p + 1
       else if m[p] < 64 then
         && steps > 0 && labels != [] && IsLabel(labels[0]) && |labels[0]| == m[p] as int
            && StandsAt(m, p + 1, labels[0])
         && Encodes(m, p + 1 + m[p] as int, labels[1..], steps - 1, end)
       else
         && m[p] >= 192 && p + 1 < |m| && end == p + 2
         && steps > 0 && Stands(m, (m[p] as int - 192) * 256 + m[p + 1] as int, labels, steps - 1)
         && (m[p] as int - 192) * 256 + (m[p + 1] as int) < p
  }

  ghost predicate Stands(m: Message, p: nat, labels: seq<Message>, steps: nat)
    decreases steps, 1
  {
    exists end: nat :: Encodes(m, p, labels, steps, end)
  }

  /** What a label or a pointer read at the start of a well-formed name tells about the rest of it. */
  lemma PartOfName(m: Message, p: nat, labels: seq<Message>, steps: nat, end: nat)
    requires Encodes(m, p, labels, steps, end) && 0 < m[p] < 64
    ensures labels != [] && steps > 0 && PieceAt(m, p) == Part(labels[0], p + m[p] as int + 1)
    ensures Encodes(m, p + m[p] as int + 1, labels[1..], steps - 1, end)
  {
    BytesAreRead(m, p + 1, labels[0]);
  }

  lemma PointerInName(m: Message, p: nat, labels: seq<Message>, steps: nat, end: nat) returns (target: nat, end': nat)
    requires Encodes(m, p, labels, steps, end) && m[p] >= 64
    ensures steps > 0 && end == p + 2 && PieceAt(m, p) == Pointer(target)
    ensures Encodes(m, target, labels, steps - 1, end')
  {
    target := (m[p] as int - 192) * 256 + m[p + 1] as int;
    end' :| Encodes(m, target, labels, steps - 1, end');
  }

  lemma {:induction false} ReadsEncoded(m: Message, p: nat, labels: seq<Message>, steps: nat, end: nat,
      guard: nat, jumped: bool, at: nat, read: seq<Message>)
    requires Encodes(m, p, labels, steps, end) && guard + steps < 128
    ensures Labels(m, p, guard, jumped, at, read) == Name(read + labels, if jumped then at else end)
    decreases steps
  {
    if m[p] == 0 {
      assert read + labels == read;
    } else if m[p] < 64 {
      PartOfName(m, p, labels, steps, end);
      ReadsEncoded(m, p + m[p] as int + 1, labels[1..], steps - 1, end, guard + 1, jumped, at, read + [labels[0]]);
      Regroup(read, [labels[0]], labels[1..]);
    } else {
      var target, end' := PointerInName(m, p, labels, steps, end);
      ReadsEncoded(m, target, labels, steps - 1, end', guard + 1, true, if jumped then at else p + 2, read);
    }
  }

  /** Reading a well-formed name gives its labels, and the offset after its first pointer or its terminator. */
  lemma NamesAreRead(m: Message, p: nat, labels: seq<Message>, steps: nat, end: nat)
    requires Encodes(m, p, labels, steps, end) && steps < 128
    ensures NameAt(m, p) == Name(labels, end)
  {
    ReadsEncoded(m, p, labels, steps, end, 0, false, p, []);
    assert [] + labels == labels;
  }

  // ------------------------------------------------------------------ writing names

  lemma StandsInItself(m: Message)
    ensures StandsAt(m, 0, m)
  {
  }

  lemma StandsInParts(m: Message, p: nat, a: Message, b: Message)
    requires StandsAt(m, p, a + b)
    ensures StandsAt(m, p, a) && StandsAt(m, p + |a|, b)
  {
    forall i | 0 <= i < |a| ensures a[i] == m[p + i] {
      assert (a + b)[i] == a[i];
    }
    forall i | 0 <= i < |b| ensures b[i] == m[p + |a| + i] {
      assert (a + b)[|a| + i] == b[i];
    }
  }

  lemma ReadsU16(m: Message, p: nat, v: int)
    requires StandsAt(m, p, U16(v))
    ensures p + 2 <= |m| && ReadU16(m, p) == v % 65536
  {
    assert U16(v)[0] == m[p] && U16(v)[1] == m[p + 1];
    assert v % 65536 == (v / 256) % 256 * 256 + v % 256;
  }

  function Written(bytes: Message): Message {
    [(|bytes| % 256) as byte] + bytes
  }

  function Flat(labels: seq<Message>): Message {
    if labels == [] then [] else Written(labels[0]) + Flat(labels[1..])
  }

  function Encoded(labels: seq<Message>): Message {
    Flat(labels) + [0]
  }

  predicate AreLabels(labels: seq<Message>) {
    forall l :: l in labels ==> IsLabel(l)
  }

  lemma {:induction false} FlatGrows(labels: seq<Message>, bytes: Message)
    ensures Flat(labels + [bytes]) == Flat(labels) + Written(bytes)
  {
    if labels == [] {
      assert [bytes][1..] == [];
    } else {
      FlatGrows(labels[1..], bytes);
      assert (labels + [bytes])[1..] == labels[1..] + [bytes];
    }
  }

  lemma FirstLabelStands(m: Message, p: nat, labels: seq<Message>)
    requires labels != [] && StandsAt(m, p, Encoded(labels)) && |labels[0]| < 256
    ensures var len := |labels[0]|;
      p + 1 + len < |m| && m[p] as int == len && StandsAt(m, p + 1, labels[0])
      && StandsAt(m, p + 1 + len, Encoded(labels[1..])) && |Encoded(labels)| == 1 + len + |Encoded(labels[1..])|
  {
    var bytes, rest := labels[0], Encoded(labels[1..]);
    assert Encoded(labels) == Written(bytes) + rest && |rest| > 0;
    hide StandsAt, Encoded, Written;
    LabelThenRest(m, p, bytes, rest);
    FirstStands(m, p + 1 + |bytes|, rest);
  }

  lemma LabelThenRest(m: Message, p: nat, bytes: Message, rest: Message)
    requires StandsAt(m, p, Written(bytes) + rest) && |bytes| < 256
    ensures |Written(bytes) + rest| == 1 + |bytes| + |rest|
    ensures p + 1 + |bytes| <= |m| && m[p] as int == |bytes|
    ensures StandsAt(m, p + 1, bytes) && StandsAt(m, p + 1 + |bytes|, rest)
  {
    var size := [(|bytes| % 256) as byte];
    assert Written(bytes) == size + bytes;
    hide StandsAt, Written;
    StandsInParts(m, p, size + bytes, rest);
    StandsInParts(m, p, size, bytes);
    FirstStands(m, p, size);
    Extent(m, p + 1, bytes);
  }

  lemma Extent(m: Message, p: nat, bytes: Message)
    requires StandsAt(m, p, bytes)
    ensures p + |bytes| <= |m|
  {
  }

  lemma FirstStands(m: Message, p: nat, bytes: Message)
    requires StandsAt(m, p, bytes) && bytes != []
    ensures p < |m| && m[p] == bytes[0]
  {
  }

  lemma TerminatorStands(m: Message, p: nat)
    requires StandsAt(m, p, Encoded([]))
    ensures p < |m| && m[p] == 0
  {
    assert Encoded([])[0] == m[p];
  }

  lemma {:induction false} EncodedIsWellFormed(m: Message, p: nat, labels: seq<Message>)
    requires StandsAt(m, p, Encoded(labels)) && AreLabels(labels)
    ensures Encodes(m, p, labels, |labels|, p + |Encoded(labels)|)
    decreases |labels|
  {
    if labels == [] {
      TerminatorStands(m, p);
    } else {
      assert IsLabel(labels[0]);
      FirstLabelStands(m, p, labels);
      EncodedIsWellFormed(m, p + 1 + |labels[0]|, labels[1..]);
    }
  }

  /** A name of 128 labels or more is left unfinished: the offset returned lies inside it. */
  lemma {:induction false} LongNameIsCut(m: Message, p: nat, labels: seq<Message>, guard: nat, at: nat,
      read: seq<Message>)
    requires StandsAt(m, p, Encoded(labels)) && AreLabels(labels) && guard <= 128 <= guard + |labels|
    ensures var r := Labels(m, p, guard, false, at, read); r.Name? && r.next < p + |Encoded(labels)|
    decreases |labels|
  {
    if guard < 128 {
      assert IsLabel(labels[0]);
      FirstLabelStands(m, p, labels);
      LongNameIsCut(m, p + 1 + |labels[0]|, labels[1..], guard + 1, at, read + [Bytes(m, p + 1, |labels[0]|)]);
    }
  }

  // ------------------------------------------------------------------ queries

  /** ASCII encoding: a character above 127 becomes a question mark. */
  function AsciiBytes(s: string): (bytes: Message)
    ensures |bytes| == |s| && forall b :: b in bytes ==> b < 128
  {
    seq(|s|, i requires 0 <= i < |s| => if s[i] as int < 128 then s[i] as int as byte else 63)
  }

  function AsciiText(s: string): string {
    TextOf(AsciiBytes(s))
  }

  lemma AsciiIsKept(s: string)
    requires forall c :: c in s ==> c as int < 128
    ensures AsciiText(s) == s
  {
    forall i | 0 <= i < |s| ensures AsciiText(s)[i] == s[i] {
      assert s[i] in s;
    }
  }

  function TrimDots(s: string): string {
    if s != "" && s[|s| - 1] == '.' then TrimDots(s[..|s| - 1]) else s
  }

  /** The name asked for, without white space around it or dots after it. */
  function Bare(name: string): string {
    TrimDots(Trim(name))
  }

  /** The name without the dots that end it. */
  ghost predicate IsWithoutDots(s: string, bare: string) {
    && bare <= s && (forall i :: |bare| <= i < |s| ==> s[i] == '.')
    && (bare != "" ==> bare[|bare| - 1] != '.')
  }

  lemma {:induction false} DotsAreTrimmed(s: string)
    ensures IsWithoutDots(s, TrimDots(s))
  {
    if s != "" && s[|s| - 1] == '.' {
      DotsAreTrimmed(s[..|s| - 1]);
    }
  }

  lemma BareIs(name: string)
    ensures IsWithoutDots(Trim(name), Bare(name))
  {
    DotsAreTrimmed(Trim(name));
  }

  function LabelsOf(parts: seq<string>): seq<Message> {
    seq(|parts|, i requires 0 <= i < |parts| => AsciiBytes(parts[i]))
  }

  function Header(id: int): Message {
    U16(id) + U16(0x0100) + U16(1) + U16(0) + U16(0) + U16(1)
  }

  /** Type and class of the question, then the EDNS0 record: root name, type 41, 4096 bytes accepted, no data. */
  function Footer(kind: int): Message {
    U16(kind) + U16(1) + [0] + U16(41) + U16(4096) + U16(0) + U16(0) + U16(0)
  }

  /** The query for a name; None where Build throws because a label is empty or longer than 63. */
  function Query(id: int, name: string, kind: int): Option<Message> {
    var labels := LabelsOf(Split(Bare(name), '.'));
    if AreLabels(labels) then Some(Header(id) + Encoded(labels) + Footer(kind)) else None
  }

  /** A name is accepted exactly when no label is empty or longer than 63 characters. */
  lemma AcceptedExactlyWhen(id: int, name: string, kind: int)
    ensures Query(id, name, kind).Some? <==> forall l :: l in Split(Bare(name), '.') ==> 0 < |l| < 64
  {
    var parts := Split(Bare(name), '.');
    var labels := LabelsOf(parts);
    if AreLabels(labels) {
      forall l | l in parts ensures 0 < |l| < 64 {
        var i :| 0 <= i < |parts| && parts[i] == l;
        assert labels[i] in labels;
      }
    }
  }

  method Build(id: int, name: string, kind: int) returns (query: Option<Message>)
    ensures query == Query(id, name, kind)
  {
    var bytes := U16(id) + U16(0x0100) + U16(1) + U16(0) + U16(0) + U16(1);
    var parts := Split(Bare(name), '.');
    ghost var labels := LabelsOf(parts);
    for i := 0 to |parts|
      invariant bytes == Header(id) + Flat(labels[..i])
      invariant AreLabels(labels[..i])
    {
      var ascii := AsciiBytes(parts[i]);
      assert labels[i] == ascii;
      if |ascii| == 0 || |ascii| > 63 {
        assert ascii in labels;
        return None;
      }
      FlatGrows(labels[..i], ascii);
      assert labels[..i + 1] == labels[..i] + [ascii];
      bytes := bytes + [|ascii| as byte] + ascii;
      assert bytes == Header(id) + (Flat(labels[..i]) + Written(ascii));
    }
    assert labels[..|parts|] == labels;
    bytes := bytes + [0];
    assert bytes == Header(id) + Encoded(labels);
    bytes := bytes + (U16(kind) + U16(1) + [0] + U16(41) + U16(4096) + U16(0) + U16(0) + U16(0));
    query := Some(bytes);
  }

  lemma {:induction false} JoinedAscii(parts: seq<string>)
    ensures Join(Texts(LabelsOf(parts)), ".") == AsciiText(Join(parts, "."))
    ensures parts != [] ==> |Flat(LabelsOf(parts))| == |Join(parts, ".")| + 1
  {
    if parts != [] {
      var labels := LabelsOf(parts);
      JoinedAscii(parts[1..]);
      assert labels[1..] == LabelsOf(parts[1..]);
      assert Texts(labels)[1..] == Texts(labels[1..]);
      if |parts| > 1 {
        AsciiParts(parts[0], ".");
        AsciiParts(parts[0] + ".", Join(parts[1..], "."));
        AsciiIsKept(".");
      }
    }
  }

  lemma AsciiParts(a: string, b: string)
    ensures AsciiText(a + b) == AsciiText(a) + AsciiText(b)
  {
  }

  /**
   The question of a query reads back as the name asked for, with the offset after it, exactly when the name has fewer
   than 128 labels; Build itself sets no such limit.
   */
  lemma QuestionIsTheName(id: int, name: string, kind: int)
    requires Query(id, name, kind).Some?
    ensures var m := Query(id, name, kind).value; var bare := Bare(name);
      ReadingOf(NameAt(m, 12)) == Reading(Lower(AsciiText(bare)), 12 + |bare| + 2) <==> |Split(bare, '.')| < 128
  {
    var m := Query(id, name, kind).value;
    var parts := Split(Bare(name), '.');
    var labels := LabelsOf(parts);
    var end := 12 + |Encoded(labels)|;
    forall i | 0 <= i < |Encoded(labels)| ensures Encoded(labels)[i] == m[12 + i] {
    }
    JoinedAscii(parts);
    JoinOfSplit(Bare(name), '.');
    if |parts| < 128 {
      EncodedIsWellFormed(m, 12, labels);
      NamesAreRead(m, 12, labels, |labels|, end);
    } else {
      LongNameIsCut(m, 12, labels, 0, 12, []);
    }
  }

  lemma HeaderIsRead(m: Message, id: int)
    requires StandsAt(m, 0, Header(id))
    ensures 12 <= |m| && ReadU16(m, 0) == id % 65536 && ReadU16(m, 2) == 0x0100 && ReadU16(m, 4) == 1
    ensures ReadU16(m, 6) == 0 && ReadU16(m, 8) == 0 && ReadU16(m, 10) == 1
  {
    var h := Header(id);
    FieldStands(m, 0, h, 0);
    FieldStands(m, 0, h, 2);
    FieldStands(m, 0, h, 4);
    FieldStands(m, 0, h, 6);
    FieldStands(m, 0, h, 8);
    FieldStands(m, 0, h, 10);
    assert h[0..2] == U16(id) && h[2..4] == U16(0x0100) && h[4..6] == U16(1);
    assert h[6..8] == U16(0) && h[8..10] == U16(0) && h[10..12] == U16(1);
    ReadsU16(m, 0, id);
    ReadsU16(m, 2, 0x0100);
    ReadsU16(m, 4, 1);
    ReadsU16(m, 6, 0);
    ReadsU16(m, 8, 0);
    ReadsU16(m, 10, 1);
  }

  lemma FooterIsRead(m: Message, end: nat, kind: int)
    requires StandsAt(m, end, Footer(kind))
    ensures end + 15 <= |m| && ReadU16(m, end) == kind % 65536 && ReadU16(m, end + 2) == 1
    ensures m[end + 4] == 0 && ReadU16(m, end + 5) == 41 && ReadU16(m, end + 7) == 4096
    ensures ReadU16(m, end + 9) == 0 && ReadU16(m, end + 11) == 0 && ReadU16(m, end + 13) == 0
  {
    var f := Footer(kind);
    assert f[0..2] == U16(kind) && f[2..4] == U16(1) && f[4] == 0;
    assert f[5..7] == U16(41) && f[7..9] == U16(4096);
    assert f[9..11] == U16(0) && f[11..13] == U16(0) && f[13..15] == U16(0);
    FieldStands(m, end, f, 0);
    FieldStands(m, end, f, 2);
    FieldStands(m, end, f, 5);
    FieldStands(m, end, f, 7);
    FieldStands(m, end, f, 9);
    FieldStands(m, end, f, 11);
    FieldStands(m, end, f, 13);
    ReadsU16(m, end, kind);
    ReadsU16(m, end + 2, 1);
    ReadsU16(m, end + 5, 41);
    ReadsU16(m, end + 7, 4096);
    ReadsU16(m, end + 9, 0);
    ReadsU16(m, end + 11, 0);
    ReadsU16(m, end + 13, 0);
  }

  lemma FieldStands(m: Message, p: nat, bytes: Message, i: nat)
    requires StandsAt(m, p, bytes) && i + 2 <= |bytes|
    ensures StandsAt(m, p + i, bytes[i..i + 2])
  {
    assert bytes[i..i + 2][0] == bytes[i] && bytes[i..i + 2][1] == bytes[i + 1];
  }

  /** One question of the type given and class IN, from offset 12 to `end`, then the EDNS0 record and nothing else. */
  predicate AsksOneQuestion(m: Message, id: int, kind: int, end: nat) {
    && 12 <= end && |m| == end + 15
    && ReadU16(m, 0) == id % 65536 && ReadU16(m, 2) == 0x0100
    && ReadU16(m, 4) == 1 && ReadU16(m, 6) == 0 && ReadU16(m, 8) == 0 && ReadU16(m, 10) == 1
    && ReadU16(m, end) == kind % 65536 && ReadU16(m, end + 2) == 1
    && m[end + 4] == 0 && ReadU16(m, end + 5) == 41 && ReadU16(m, end + 7) == 4096
    && ReadU16(m, end + 9) == 0 && ReadU16(m, end + 11) == 0 && ReadU16(m, end + 13) == 0
  }

  lemma QueryInParts(id: int, question: Message, kind: int)
    ensures AsksOneQuestion(Header(id) + question + Footer(kind), id, kind, 12 + |question|)
  {
    var m := Header(id) + question + Footer(kind);
    Regroup(Header(id), question, Footer(kind));
    StandsInItself(m);
    StandsInParts(m, 0, Header(id), question + Footer(kind));
    StandsInParts(m, 12, question, Footer(kind));
    HeaderIsRead(m, id);
    FooterIsRead(m, 12 + |question|, kind);
  }

  lemma QueryAsksOneQuestion(id: int, name: string, kind: int)
    requires Query(id, name, kind).Some?
    ensures AsksOneQuestion(Query(id, name, kind).value, id, kind, 12 + |Bare(name)| + 2)
  {
    var parts := Split(Bare(name), '.');
    JoinedAscii(parts);
    JoinOfSplit(Bare(name), '.');
    QueryInParts(id, Encoded(LabelsOf(parts)), kind);
  }

  // ------------------------------------------------------------------ responses

  /** A place in the message; Beyond where the program throws before it gets there. */
  datatype Offset = Beyond | Offset(at: nat)

  /** The offset after the questions. */
  function SkipQuestions(m: Message, count: nat, at: nat): Offset
    decreases count
  {
    if count == 0 then Offset(at)
    else
      match NameAt(m, at)
      case NoName => Beyond
      case Name(_, next) => SkipQuestions(m, count - 1, next + 4)
  }

  /** The strings of a TXT record put end to end; `utf8`: the decoding of one string. */
  function TextData(m: Message, p: nat, end: nat, utf8: Message -> string, text: string): string
    requires end <= |m|
    decreases end - p
  {
    if p >= end then text
    else
      var n := m[p] as int;
      TextData(m, p + 1 + n, end, utf8, text + utf8(Bytes(m, p + 1, Least(n, end - p - 1))))
  }

  /** The records read so far and the offset to go on from; Broken where the program throws. */
  datatype Batch = Broken | Batch(records: seq<Record>, next: nat)

  /** The records made from the data of one answer of the type asked for. */
  function Data(m: Message, data: nat, end: nat, kind: int, utf8: Message -> string): Batch
    requires data <= end <= |m|
  {
    if kind == MX then
      if data + 2 > |m| then Broken
      else
        match NameAt(m, data + 2)
        case NoName => Broken
        case Name(host, _) => Batch([Record(ReadU16(m, data), 0, 0, HostName(host))], end)
    else if kind == SRV then
      if data + 6 > |m| then Broken
      else
        match NameAt(m, data + 6)
        case NoName => Broken
        case Name(host, _) =>
          Batch([Record(ReadU16(m, data), ReadU16(m, data + 2), ReadU16(m, data + 4), HostName(host))], end)
    else if kind == TXT then Batch([Record(0, 0, 0, TextData(m, data, end, utf8, ""))], end)
    else Batch([], end)
  }

  /** The records of one answer whose owner name ends at an offset, and the offset after it. */
  function AnswerAt(m: Message, at: nat, kind: int, utf8: Message -> string): Batch {
    if at + 10 > |m| then Broken
    else
      var end := at + 10 + ReadU16(m, at + 8);
      if ReadU16(m, at) != kind || end > |m| then Batch([], end) else Data(m, at + 10, end, kind, utf8)
  }

  /** An answer with its owner name. */
  function AnswerFrom(m: Message, at: nat, kind: int, utf8: Message -> string): Batch {
    match NameAt(m, at)
    case NoName => Broken
    case Name(_, next) => AnswerAt(m, next, kind, utf8)
  }

  function Answers(m: Message, count: nat, at: nat, kind: int, utf8: Message -> string, records: seq<Record>): Batch
    decreases count
  {
    if count == 0 || at + 10 > |m| then Batch(records, at)
    else
      match AnswerFrom(m, at, kind, utf8)
      case Broken => Broken
      case Batch(more, end) => Answers(m, count - 1, end, kind, utf8, records + more)
  }

  /** The result of Parse: the records, and the offset it stopped at. */
  function Parsed(m: Message, kind: int, utf8: Message -> string): Batch {
    if |m| < 8 then Broken
    else
      match SkipQuestions(m, ReadU16(m, 4), 12)
      case Beyond => Broken
      case Offset(at) => Answers(m, ReadU16(m, 6), at, kind, utf8, [])
  }

  method ReadText(m: Message, data: nat, end: nat, utf8: Message -> string) returns (text: string)
    requires data <= end <= |m|
    ensures text == TextData(m, data, end, utf8, "")
  {
    text := "";
    var p := data;
    while p < end
      invariant TextData(m, data, end, utf8, "") == TextData(m, p, end, utf8, text)
    {
      var n := m[p] as int;
      p := p + 1;
      text := text + utf8(Bytes(m, p, Least(n, end - p)));
      p := p + n;
    }
  }

  /** The cases of Parse by type. */
  method ReadData(m: Message, data: nat, end: nat, kind: int, utf8: Message -> string) returns (result: Batch)
    requires data <= end <= |m|
    ensures result == Data(m, data, end, kind, utf8)
  {
    if kind == MX {
      if data + 2 > |m| {
        return Broken;
      }
      var host := ReadName(m, data + 2);
      if host.Thrown? {
        return Broken;
      }
      result := Batch([Record(ReadU16(m, data), 0, 0, host.text)], end);
    } else if kind == SRV {
      if data + 6 > |m| {
        return Broken;
      }
      var host := ReadName(m, data + 6);
      if host.Thrown? {
        return Broken;
      }
      result := Batch([Record(ReadU16(m, data), ReadU16(m, data + 2), ReadU16(m, data + 4), host.text)], end);
    } else if kind == TXT {
      var text := ReadText(m, data, end, utf8);
      result := Batch([Record(0, 0, 0, text)], end);
    } else {
      result := Batch([], end);
    }
  }

  /** An answer, after its owner name. */
  method ReadAnswer(m: Message, at: nat, kind: int, utf8: Message -> string) returns (result: Batch)
    ensures result == AnswerAt(m, at, kind, utf8)
  {
    if at + 10 > |m| {
      return Broken;
    }
    var rtype, length := ReadU16(m, at), ReadU16(m, at + 8);
    var data := at + 10;
    var end := data + length;
    if rtype != kind || end > |m| {
      return Batch([], end);
    }
    result := ReadData(m, data, end, kind, utf8);
  }

  /** The loop of Parse over the questions. */
  method PassQuestions(m: Message, count: nat) returns (result: Offset)
    ensures result == SkipQuestions(m, count, 12)
  {
    var at: nat := 12;
    for i := 0 to count
      invariant SkipQuestions(m, count, 12) == SkipQuestions(m, count - i, at)
    {
      var name := ReadName(m, at);
      if name.Thrown? {
        return Beyond;
      }
      at := name.next + 4;
    }
    result := Offset(at);
  }

  /** What is left to read gives the same result as the whole. */
  ghost predicate GoesOn(all: Batch, m: Message, left: nat, at: nat, kind: int, utf8: Message -> string,
      records: seq<Record>) {
    all == Answers(m, left, at, kind, utf8, records)
  }

  /** One round of the loop over the answers. */
  method ReadOwned(m: Message, at: nat, kind: int, utf8: Message -> string,
                   ghost all: Batch, ghost left: nat, ghost records: seq<Record>)
    returns (result: Batch)
    requires left > 0 && at + 10 <= |m| && GoesOn(all, m, left, at, kind, utf8, records)
    ensures result.Broken? ==> all == Broken
    ensures result.Batch? ==> GoesOn(all, m, left - 1, result.next, kind, utf8, records + result.records)
  {
    var owner := ReadName(m, at);
    if owner.Thrown? {
      return Broken;
    }
    result := ReadAnswer(m, owner.next, kind, utf8);
  }

  /** The loop of Parse over the answers. */
  method ReadAnswers(m: Message, count: nat, start: nat, kind: int, utf8: Message -> string) returns (result: Batch)
    ensures result == Answers(m, count, start, kind, utf8, [])
  {
    hide AnswerFrom;
    var records: seq<Record>, at: nat := [], start;
    ghost var all := Answers(m, count, start, kind, utf8, []);
    var left := count;
    while left > 0 && at + 10 <= |m|
      invariant GoesOn(all, m, left, at, kind, utf8, records)
      decreases left
    {
      var answer := ReadOwned(m, at, kind, utf8, all, left, records);
      if answer.Broken? {
        return Broken;
      }
      records, at, left := records + answer.records, answer.next, left - 1;
    }
    result := Batch(records, at);
  }

  method Parse(m: Message, kind: int, utf8: Message -> string) returns (result: Batch)
    ensures result == Parsed(m, kind, utf8)
  {
    if |m| < 8 {
      return Broken;
    }
    var start := PassQuestions(m, ReadU16(m, 4));
    if start.Beyond? {
      return Broken;
    }
    result := ReadAnswers(m, ReadU16(m, 6), start.at, kind, utf8);
  }

  // ------------------------------------------------------------------ well-formed responses

  /** A resource record as its sender means it (sections 3.3.9 and 3.3.14 of RFC 1035, RFC 2782). */
  datatype Resource =
    | Mail(priority: nat, host: seq<Message>)
    | Service(priority: nat, weight: nat, port: nat, host: seq<Message>)
    | Text(strings: seq<Message>)
    | Other(kind: nat)

  function KindOf(r: Resource): int {
    match r
    case Mail(_, _) => MX
    case Service(_, _, _, _) => SRV
    case Text(_) => TXT
    case Other(kind) => kind
  }

  ghost predicate IsName(m: Message, p: nat, labels: seq<Message>) {
    exists steps: nat, end: nat :: steps < 128 && Encodes(m, p, labels, steps, end)
  }

  /** A name stands at p, and what follows it starts at `end`. */
  ghost predicate NameEnds(m: Message, p: nat, end: nat) {
    exists labels: seq<Message>, steps: nat :: steps < 128 && Encodes(m, p, labels, steps, end)
  }

  predicate AreStrings(strings: seq<Message>) {
    forall t :: t in strings ==> |t| < 256
  }

  ghost predicate DataIs(m: Message, data: nat, end: nat, r: Resource)
    requires data <= end <= |m|
  {
    match r
    case Mail(priority, host) => data + 2 <= |m| && ReadU16(m, data) == priority && IsName(m, data + 2, host)
    case Service(priority, weight, port, host) =>
      && data + 6 <= |m| && ReadU16(m, data) == priority && ReadU16(m, data + 2) == weight
      && ReadU16(m, data + 4) == port && IsName(m, data + 6, host)
    case Text(strings) => end == data + |Flat(strings)| && StandsAt(m, data, Flat(strings)) && AreStrings(strings)
    case Other(kind) => kind != MX && kind != SRV && kind != TXT
  }

  /** At an offset, after an owner name, stands the rest of one record; the next one starts at `end`. */
  ghost predicate RecordIs(m: Message, at: nat, r: Resource, end: nat) {
    && at + 10 <= end <= |m|
    && ReadU16(m, at) == KindOf(r)
    && end == at + 10 + ReadU16(m, at + 8)
    && DataIs(m, at + 10, end, r)
  }

  ghost predicate ResourceIs(m: Message, at: nat, r: Resource, end: nat) {
    exists next: nat :: NameEnds(m, at, next) && RecordIs(m, next, r, end)
  }

  ghost predicate ResourcesAre(m: Message, at: nat, rs: seq<Resource>)
    decreases |rs|
  {
    rs != [] ==> exists end: nat :: ResourceIs(m, at, rs[0], end) && ResourcesAre(m, end, rs[1..])
  }

  /** Question i starts at offset at[i]; what follows the last one starts at the last offset. */
  ghost predicate QuestionsAt(m: Message, at: seq<nat>) {
    && |at| > 0
    && forall i :: 0 <= i < |at| - 1 ==> QuestionIs(m, at[i], at[i + 1])
  }

  /** A name, a type and a class. */
  ghost predicate QuestionIs(m: Message, at: nat, next: nat) {
    next >= 4 && NameEnds(m, at, next - 4)
  }

  /** A response whose answers are the given resources. */
  ghost predicate IsResponse(m: Message, rs: seq<Resource>) {
    && 12 <= |m|
    && ReadU16(m, 6) == |rs|
    && exists at: seq<nat> ::
         QuestionsAt(m, at) && |at| == ReadU16(m, 4) + 1 && at[0] == 12 && ResourcesAre(m, at[|at| - 1], rs)
  }

  /** The strings decoded one by one and put end to end. */
  function Decoded(strings: seq<Message>, utf8: Message -> string): string {
    if strings == [] then "" else utf8(strings[0]) + Decoded(strings[1..], utf8)
  }

  function RecordsOf(r: Resource, kind: int, utf8: Message -> string): seq<Record> {
    if KindOf(r) != kind then []
    else
      match r
      case Mail(priority, host) => [Record(priority, 0, 0, HostName(host))]
      case Service(priority, weight, port, host) => [Record(priority, weight, port, HostName(host))]
      case Text(strings) => [Record(0, 0, 0, Decoded(strings, utf8))]
      case Other(_) => []
  }

  function AllRecordsOf(rs: seq<Resource>, kind: int, utf8: Message -> string): seq<Record> {
    if rs == [] then [] else RecordsOf(rs[0], kind, utf8) + AllRecordsOf(rs[1..], kind, utf8)
  }

  lemma NameIsPassed(m: Message, p: nat, end: nat)
    requires NameEnds(m, p, end)
    ensures p < end && NameAt(m, p).Name? && NameAt(m, p).next == end
  {
    var labels: seq<Message>, steps: nat :| steps < 128 && Encodes(m, p, labels, steps, end);
    NamesAreRead(m, p, labels, steps, end);
    EndsAfter(m, p, labels, steps, end);
  }

  predicate IsPassed(m: Message, at: nat, next: nat) {
    var name := NameAt(m, at);
    name.Name? && name.next + 4 == next
  }

  lemma QuestionIsPassed(m: Message, at: nat, next: nat)
    requires QuestionIs(m, at, next)
    ensures IsPassed(m, at, next)
  {
    NameIsPassed(m, at, next - 4);
  }

  lemma {:induction false} AllArePassed(m: Message, at: seq<nat>, i: nat)
    requires i < |at| && forall k :: 0 <= k < |at| - 1 ==> IsPassed(m, at[k], at[k + 1])
    ensures SkipQuestions(m, |at| - 1 - i, at[i]) == Offset(at[|at| - 1])
    decreases |at| - i
  {
    if i < |at| - 1 {
      assert IsPassed(m, at[i], at[i + 1]);
      AllArePassed(m, at, i + 1);
    }
  }

  lemma QuestionsAreSkipped(m: Message, at: seq<nat>)
    requires QuestionsAt(m, at)
    ensures SkipQuestions(m, |at| - 1, at[0]) == Offset(at[|at| - 1])
  {
    forall k | 0 <= k < |at| - 1 ensures IsPassed(m, at[k], at[k + 1]) {
      QuestionIsPassed(m, at[k], at[k + 1]);
    }
    AllArePassed(m, at, 0);
  }

  lemma NameIsRead(m: Message, p: nat, labels: seq<Message>)
    requires IsName(m, p, labels)
    ensures NameAt(m, p).Name? && NameAt(m, p).labels == labels
  {
    var steps: nat, end: nat :| steps < 128 && Encodes(m, p, labels, steps, end);
    NamesAreRead(m, p, labels, steps, end);
  }

  lemma {:induction false} StringsAreRead(m: Message, p: nat, strings: seq<Message>, utf8: Message -> string,
      text: string)
    requires StandsAt(m, p, Flat(strings)) && AreStrings(strings)
    ensures TextData(m, p, p + |Flat(strings)|, utf8, text) == text + Decoded(strings, utf8)
    decreases |strings|
  {
    var end := p + |Flat(strings)|;
    if strings == [] {
      assert text + Decoded(strings, utf8) == text;
    } else {
      var first := strings[0];
      FirstStringStands(m, p, strings);
      StringsAreRead(m, p + 1 + |first|, strings[1..], utf8, text + utf8(first));
      Regroup(text, utf8(first), Decoded(strings[1..], utf8));
    }
  }

  lemma FirstStringStands(m: Message, p: nat, strings: seq<Message>)
    requires strings != [] && StandsAt(m, p, Flat(strings)) && AreStrings(strings)
    ensures var len := |strings[0]|;
      p + 1 + len <= |m| && m[p] as int == len && Bytes(m, p + 1, len) == strings[0]
      && StandsAt(m, p + 1 + len, Flat(strings[1..])) && |Flat(strings)| == 1 + len + |Flat(strings[1..])|
  {
    var first := strings[0];
    assert first in strings;
    StandsInParts(m, p, Written(first), Flat(strings[1..]));
    StandsInParts(m, p, [(|first| % 256) as byte], first);
    assert [(|first| % 256) as byte][0] == m[p];
    BytesAreRead(m, p + 1, first);
  }

  lemma MailIsRead(m: Message, data: nat, end: nat, r: Resource, utf8: Message -> string)
    requires r.Mail? && data <= end <= |m| && DataIs(m, data, end, r)
    ensures Data(m, data, end, MX, utf8) == Batch(RecordsOf(r, MX, utf8), end)
  {
    NameIsRead(m, data + 2, r.host);
  }

  lemma ServiceIsRead(m: Message, data: nat, end: nat, r: Resource, utf8: Message -> string)
    requires r.Service? && data <= end <= |m| && DataIs(m, data, end, r)
    ensures Data(m, data, end, SRV, utf8) == Batch(RecordsOf(r, SRV, utf8), end)
  {
    NameIsRead(m, data + 6, r.host);
  }

  lemma TextIsRead(m: Message, data: nat, end: nat, r: Resource, utf8: Message -> string)
    requires r.Text? && data <= end <= |m| && DataIs(m, data, end, r)
    ensures Data(m, data, end, TXT, utf8) == Batch(RecordsOf(r, TXT, utf8), end)
  {
    StringsAreRead(m, data, r.strings, utf8, "");
    assert "" + Decoded(r.strings, utf8) == Decoded(r.strings, utf8);
  }

  lemma DataIsRead(m: Message, data: nat, end: nat, r: Resource, utf8: Message -> string)
    requires data <= end <= |m| && DataIs(m, data, end, r)
    ensures Data(m, data, end, KindOf(r), utf8) == Batch(RecordsOf(r, KindOf(r), utf8), end)
  {
    match r
    case Mail(_, _) => MailIsRead(m, data, end, r, utf8);
    case Service(_, _, _, _) => ServiceIsRead(m, data, end, r, utf8);
    case Text(_) => TextIsRead(m, data, end, r, utf8);
    case Other(_) =>
  }

  lemma AnswerIsRead(m: Message, at: nat, r: Resource, end: nat, kind: int, utf8: Message -> string)
    requires RecordIs(m, at, r, end)
    ensures AnswerAt(m, at, kind, utf8) == Batch(RecordsOf(r, kind, utf8), end)
  {
    if KindOf(r) == kind {
      DataIsRead(m, at + 10, end, r, utf8);
    }
  }

  /** Reading one well-formed answer adds its records, if it is of the type asked for, and leads to the next one. */
  lemma ResourceIsRead(m: Message, at: nat, r: Resource, end: nat, count: nat, kind: int, utf8: Message -> string,
      read: seq<Record>)
    requires ResourceIs(m, at, r, end) && count > 0
    ensures Answers(m, count, at, kind, utf8, read)
            == Answers(m, count - 1, end, kind, utf8, read + RecordsOf(r, kind, utf8))
  {
    var next: nat :| NameEnds(m, at, next) && RecordIs(m, next, r, end);
    NameIsPassed(m, at, next);
    AnswerIsRead(m, next, r, end, kind, utf8);
    OneRound(m, count, at, kind, utf8, read, next, RecordsOf(r, kind, utf8), end);
  }

  lemma OneRound(m: Message, count: nat, at: nat, kind: int, utf8: Message -> string, read: seq<Record>,
      next: nat, more: seq<Record>, end: nat)
    requires count > 0 && at + 10 <= |m| && NameAt(m, at).Name? && NameAt(m, at).next == next
    requires AnswerAt(m, next, kind, utf8) == Batch(more, end)
    ensures Answers(m, count, at, kind, utf8, read) == Answers(m, count - 1, end, kind, utf8, read + more)
  {
  }

  lemma RecordsInTurn(rs: seq<Resource>, kind: int, utf8: Message -> string, read: seq<Record>)
    requires rs != []
    ensures read + RecordsOf(rs[0], kind, utf8) + AllRecordsOf(rs[1..], kind, utf8)
            == read + AllRecordsOf(rs, kind, utf8)
  {
    Regroup(read, RecordsOf(rs[0], kind, utf8), AllRecordsOf(rs[1..], kind, utf8));
  }

  lemma FirstAnswerIsRead(m: Message, at: nat, rs: seq<Resource>, kind: int, utf8: Message -> string, read: seq<Record>)
      returns (end: nat)
    requires rs != [] && ResourcesAre(m, at, rs)
    ensures ResourcesAre(m, end, rs[1..])
    ensures Answers(m, |rs|, at, kind, utf8, read)
            == Answers(m, |rs[1..]|, end, kind, utf8, read + RecordsOf(rs[0], kind, utf8))
  {
    end :| ResourceIs(m, at, rs[0], end) && ResourcesAre(m, end, rs[1..]);
    ResourceIsRead(m, at, rs[0], end, |rs|, kind, utf8, read);
  }

  lemma {:induction false} AnswersAreRead(m: Message, at: nat, rs: seq<Resource>, kind: int, utf8: Message -> string,
      read: seq<Record>)
    requires ResourcesAre(m, at, rs)
    ensures var r := Answers(m, |rs|, at, kind, utf8, read);
            r.Batch? && r.records == read + AllRecordsOf(rs, kind, utf8)
    decreases |rs|
  {
    if rs == [] {
      assert read + AllRecordsOf(rs, kind, utf8) == read;
    } else {
      var end := FirstAnswerIsRead(m, at, rs, kind, utf8, read);
      AnswersAreRead(m, end, rs[1..], kind, utf8, read + RecordsOf(rs[0], kind, utf8));
      RecordsInTurn(rs, kind, utf8, read);
    }
  }

  lemma {:induction false} EndsAfter(m: Message, p: nat, labels: seq<Message>, steps: nat, end: nat)
    requires Encodes(m, p, labels, steps, end)
    ensures p < end
    decreases steps
  {
    if 0 < m[p] < 64 {
      EndsAfter(m, p + 1 + m[p] as int, labels[1..], steps - 1, end);
    }
  }

  lemma ParsedAfterQuestions(m: Message, start: nat, rs: seq<Resource>, kind: int, utf8: Message -> string)
    requires 8 <= |m| && SkipQuestions(m, ReadU16(m, 4), 12) == Offset(start)
    requires ReadU16(m, 6) == |rs| && ResourcesAre(m, start, rs)
    ensures var r := Parsed(m, kind, utf8); r.Batch? && r.records == AllRecordsOf(rs, kind, utf8)
  {
    AnswersAreRead(m, start, rs, kind, utf8, []);
    assert [] + AllRecordsOf(rs, kind, utf8) == AllRecordsOf(rs, kind, utf8);
  }

  /** Parsing a well-formed response gives the records of the type asked for, all of them, in order. */
  lemma ParseIsExact(m: Message, rs: seq<Resource>, kind: int, utf8: Message -> string)
    requires IsResponse(m, rs)
    ensures var r := Parsed(m, kind, utf8); r.Batch? && r.records == AllRecordsOf(rs, kind, utf8)
  {
    var at: seq<nat> :|
      QuestionsAt(m, at) && |at| == ReadU16(m, 4) + 1 && at[0] == 12 && ResourcesAre(m, at[|at| - 1], rs);
    QuestionsAreSkipped(m, at);
    ParsedAfterQuestions(m, at[|at| - 1], rs, kind, utf8);
  }

  // ------------------------------------------------------------------ writing responses

  predicate IsHost(labels: seq<Message>) {
    AreLabels(labels) && |labels| < 128
  }

  /** Every field fits its place. */
  predicate Sendable(r: Resource) {
    && |DataOf(r)| < 65536
    && match r
       case Mail(priority, host) => priority < 65536 && IsHost(host)
       case Service(priority, weight, port, host) => priority < 65536 && weight < 65536 && port < 65536 && IsHost(host)
       case Text(strings) => AreStrings(strings)
       case Other(kind) => kind < 65536 && kind != MX && kind != SRV && kind != TXT
  }

  function DataOf(r: Resource): Message {
    match r
    case Mail(priority, host) => U16(priority) + Encoded(host)
    case Service(priority, weight, port, host) => U16(priority) + (U16(weight) + (U16(port) + Encoded(host)))
    case Text(strings) => Flat(strings)
    case Other(_) => []
  }

  /** Type, class, time to live and length. */
  function Fixed(kind: int, length: nat): Message {
    U16(kind) + (U16(1) + U16(0) + U16(300) + U16(length))
  }

  /** One answer; its owner name is a pointer to the question, at offset 12. */
  function Answer(r: Resource): Message {
    [192, 12] + (Fixed(KindOf(r), |DataOf(r)|) + DataOf(r))
  }

  function AnswersOf(rs: seq<Resource>): Message {
    if rs == [] then [] else Answer(rs[0]) + AnswersOf(rs[1..])
  }

  function ResponseHeader(id: int, count: nat): Message {
    U16(id) + U16(0x8180) + (U16(1) + (U16(count) + (U16(0) + U16(0))))
  }

  function Response(id: int, question: seq<Message>, kind: int, rs: seq<Resource>): Message {
    ResponseHeader(id, |rs|) + (Encoded(question) + ((U16(kind) + U16(1)) + AnswersOf(rs)))
  }

  lemma FixedIsRead(m: Message, at: nat, kind: int, length: nat)
    requires StandsAt(m, at, Fixed(kind, length)) && 0 <= kind < 65536 && length < 65536
    ensures at + 10 <= |m| && ReadU16(m, at) == kind && ReadU16(m, at + 8) == length
  {
    var constants := U16(1) + U16(0) + U16(300);
    StandsInParts(m, at, U16(kind), constants + U16(length));
    StandsInParts(m, at + 2, constants, U16(length));
    ReadsU16(m, at, kind);
    ReadsU16(m, at + 8, length);
  }

  lemma HostStands(m: Message, p: nat, host: seq<Message>)
    requires StandsAt(m, p, Encoded(host)) && IsHost(host)
    ensures IsName(m, p, host)
  {
    EncodedIsWellFormed(m, p, host);
  }

  lemma DataStands(m: Message, data: nat, r: Resource)
    requires StandsAt(m, data, DataOf(r)) && Sendable(r)
    ensures DataIs(m, data, data + |DataOf(r)|, r)
  {
    match r
    case Mail(priority, host) =>
      StandsInParts(m, data, U16(priority), Encoded(host));
      ReadsU16(m, data, priority);
      HostStands(m, data + 2, host);
    case Service(priority, weight, port, host) => ServiceStands(m, data, priority, weight, port, host);
    case Text(_) =>
    case Other(_) =>
  }

  lemma FieldThenRest(m: Message, p: nat, v: nat, rest: Message)
    requires StandsAt(m, p, U16(v) + rest) && v < 65536
    ensures p + 2 <= |m| && ReadU16(m, p) == v && StandsAt(m, p + 2, rest)
  {
    StandsInParts(m, p, U16(v), rest);
    ReadsU16(m, p, v);
  }

  lemma ServiceStands(m: Message, data: nat, priority: nat, weight: nat, port: nat, host: seq<Message>)
    requires StandsAt(m, data, U16(priority) + (U16(weight) + (U16(port) + Encoded(host))))
    requires priority < 65536 && weight < 65536 && port < 65536 && IsHost(host)
    ensures data + 6 <= |m| && ReadU16(m, data) == priority && ReadU16(m, data + 2) == weight
    ensures ReadU16(m, data + 4) == port && IsName(m, data + 6, host)
  {
    FieldThenRest(m, data, priority, U16(weight) + (U16(port) + Encoded(host)));
    FieldThenRest(m, data + 2, weight, U16(port) + Encoded(host));
    FieldThenRest(m, data + 4, port, Encoded(host));
    HostStands(m, data + 6, host);
  }

  lemma PointerStands(m: Message, at: nat, question: seq<Message>, end: nat)
    requires 12 < at && at + 2 <= |m| && m[at] == 192 && m[at + 1] == 12
    requires Encodes(m, 12, question, |question|, end) && |question| < 127
    ensures NameEnds(m, at, at + 2)
  {
    assert Stands(m, 12, question, |question|);
    assert Encodes(m, at, question, |question| + 1, at + 2);
  }

  lemma RecordStands(m: Message, at: nat, r: Resource)
    requires StandsAt(m, at, Fixed(KindOf(r), |DataOf(r)|) + DataOf(r)) && Sendable(r)
    ensures RecordIs(m, at, r, at + 10 + |DataOf(r)|)
  {
    StandsInParts(m, at, Fixed(KindOf(r), |DataOf(r)|), DataOf(r));
    FixedIsRead(m, at, KindOf(r), |DataOf(r)|);
    DataStands(m, at + 10, r);
  }

  lemma AnswerStands(m: Message, at: nat, r: Resource, question: seq<Message>, questionEnd: nat)
    requires StandsAt(m, at, Answer(r)) && Sendable(r) && 12 < at
    requires Encodes(m, 12, question, |question|, questionEnd) && |question| < 127
    ensures ResourceIs(m, at, r, at + |Answer(r)|)
  {
    StandsInParts(m, at, [192, 12], Fixed(KindOf(r), |DataOf(r)|) + DataOf(r));
    assert [192, 12][0] == m[at] && [192, 12][1] == m[at + 1];
    PointerStands(m, at, question, questionEnd);
    RecordStands(m, at + 2, r);
  }

  lemma {:induction false} AnswersStand(m: Message, at: nat, rs: seq<Resource>, question: seq<Message>,
      questionEnd: nat)
    requires StandsAt(m, at, AnswersOf(rs)) && (forall r :: r in rs ==> Sendable(r)) && 12 < at
    requires Encodes(m, 12, question, |question|, questionEnd) && |question| < 127
    ensures ResourcesAre(m, at, rs)
    decreases |rs|
  {
    if rs != [] {
      var end := at + |Answer(rs[0])|;
      StandsInParts(m, at, Answer(rs[0]), AnswersOf(rs[1..]));
      AnswerStands(m, at, rs[0], question, questionEnd);
      AnswersStand(m, end, rs[1..], question, questionEnd);
    }
  }

  /** The fields of a response's header that Parse reads. */
  lemma HeaderStands(m: Message, id: int, count: nat)
    requires StandsAt(m, 0, ResponseHeader(id, count)) && count < 65536
    ensures 12 <= |m| && ReadU16(m, 4) == 1 && ReadU16(m, 6) == count
  {
    StandsInParts(m, 0, U16(id) + U16(0x8180), U16(1) + (U16(count) + (U16(0) + U16(0))));
    StandsInParts(m, 4, U16(1), U16(count) + (U16(0) + U16(0)));
    StandsInParts(m, 6, U16(count), U16(0) + U16(0));
    ReadsU16(m, 4, 1);
    ReadsU16(m, 6, count);
  }

  lemma QuestionStands(m: Message, question: seq<Message>, rest: Message)
    requires StandsAt(m, 12, Encoded(question) + rest) && IsHost(question)
    ensures var end := 12 + |Encoded(question)|;
      Encodes(m, 12, question, |question|, end) && QuestionsAt(m, [12, end + 4]) && StandsAt(m, end, rest)
  {
    StandsInParts(m, 12, Encoded(question), rest);
    EncodedIsWellFormed(m, 12, question);
  }

  lemma BodyStands(m: Message, question: seq<Message>, kind: int, rs: seq<Resource>) returns (end: nat)
    requires StandsAt(m, 12, Encoded(question) + ((U16(kind) + U16(1)) + AnswersOf(rs)))
    requires AreLabels(question) && |question| < 127 && forall r :: r in rs ==> Sendable(r)
    ensures QuestionsAt(m, [12, end]) && ResourcesAre(m, end, rs)
  {
    hide StandsAt, AnswersOf, ResourcesAre, QuestionsAt, Encoded;
    QuestionStands(m, question, (U16(kind) + U16(1)) + AnswersOf(rs));
    var nameEnd := 12 + |Encoded(question)|;
    end := nameEnd + 4;
    StandsInParts(m, nameEnd, U16(kind) + U16(1), AnswersOf(rs));
    AnswersStand(m, end, rs, question, nameEnd);
  }

  lemma ResponseStands(m: Message, rs: seq<Resource>, end: nat)
    requires 12 <= |m| && ReadU16(m, 4) == 1 && ReadU16(m, 6) == |rs|
    requires QuestionsAt(m, [12, end]) && ResourcesAre(m, end, rs)
    ensures IsResponse(m, rs)
  {
    var at: seq<nat> := [12, end];
    assert |at| == 2 && at[|at| - 1] == end;
  }

  lemma ResponseIsWellFormed(id: int, question: seq<Message>, kind: int, rs: seq<Resource>)
    requires AreLabels(question) && |question| < 127
    requires |rs| < 65536 && forall r :: r in rs ==> Sendable(r)
    ensures IsResponse(Response(id, question, kind, rs), rs)
  {
    var m := Response(id, question, kind, rs);
    StandsInParts(m, 0, ResponseHeader(id, |rs|), Encoded(question) + ((U16(kind) + U16(1)) + AnswersOf(rs)));
    HeaderStands(m, id, |rs|);
    var end := BodyStands(m, question, kind, rs);
    ResponseStands(m, rs, end);
  }

  /** The round trip: what a server writes as answers is what Parse returns, for the type asked for. */
  lemma ResponseReadsBack(id: int, question: seq<Message>, kind: int, rs: seq<Resource>, utf8: Message -> string)
    requires AreLabels(question) && |question| < 127
    requires |rs| < 65536 && forall r :: r in rs ==> Sendable(r)
    ensures var r := Parsed(Response(id, question, kind, rs), kind, utf8);
      r.Batch? && r.records == AllRecordsOf(rs, kind, utf8)
  {
    ResponseIsWellFormed(id, question, kind, rs);
    ParseIsExact(Response(id, question, kind, rs), rs, kind, utf8);
  }
}
