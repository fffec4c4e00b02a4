/** Names that are cut back into the words they were made of. */
module RedactedStyles {
  import opened Strings
  import opened RedactedWords

  // ------------------------------------------------------------------ words begin at breaks

  datatype Kind = Small | Capital | Figure | Sign

  function KindOf(c: char): Kind {
    if 'a' <= c <= 'z' then Small else if 'A' <= c <= 'Z' then Capital else if '0' <= c <= '9' then Figure else Sign
  }

  /** From small letter to capital, from letter to figure or back, and between two capitals before a small letter. */
  predicate BreaksAt(name: string, i: nat)
    requires 0 < i < |name|
  {
    match (KindOf(name[i - 1]), KindOf(name[i]))
    case (Small, Capital) => true
    case (Small, Figure) => true
    case (Capital, Figure) => true
    case (Figure, Small) => true
    case (Figure, Capital) => true
    case (Capital, Capital) => i + 1 < |name| && KindOf(name[i + 1]) == Small
    case _ => false
  }

  predicate HoldsNoSign(name: string) {
    forall c :: c in name ==> KindOf(c) != Sign
  }

  lemma BreakStartsWord(name: string, i: nat)
    requires 0 < i < |name| && HoldsNoSign(name)
    ensures StartsWord(name, i) <==> BreaksAt(name, i)
  {
    assert name[i - 1] in name && name[i] in name;
  }

  /** One of the words, put end to end, begins at offset i. */
  predicate BeginsAt(words: seq<string>, i: nat) {
    exists k :: 0 <= k < |words| && |Concat(words[..k])| == i
  }

  /** The words completed before i and what there is of the one under construction. */
  function SoFar(name: string, i: nat): seq<string>
    requires i <= |name|
  {
    var c := CutAt(name, i);
    if c.start >= 0 then c.words + [Lower(name[c.start..i])] else c.words
  }

  lemma BeginsWithOneMore(words: seq<string>, w: string, i: nat)
    ensures BeginsAt(words + [w], i) <==> BeginsAt(words, i) || |Concat(words)| == i
  {
    assert forall k :: 0 <= k < |words| ==> (words + [w])[..k] == words[..k];
    assert (words + [w])[..|words|] == words;
    if BeginsAt(words, i) {
      var k :| 0 <= k < |words| && |Concat(words[..k])| == i;
      assert |Concat((words + [w])[..k])| == i;
    }
    if |Concat(words)| == i {
      assert |Concat((words + [w])[..|words|])| == i;
    }
  }

  lemma SoFarGrows(name: string, k: nat)
    requires 0 < k < |name| && IsWordChar(name[k]) && CutAt(name, k).start >= 0
    ensures var c, next := CutAt(name, k), CutAt(name, k + 1);
      var w := Lower(name[c.start..k]);
      && SoFar(name, k) == c.words + [w]
      && next == (if StartsWord(name, k) then Cut(c.words + [w], k) else c)
      && SoFar(name, k + 1) == next.words + [Lower(name[next.start..k + 1])]
  {
  }

  lemma {:induction false} ConcatOfFirst(words: seq<string>, k: nat)
    requires k <= |words|
    ensures |Concat(words[..k])| <= |Concat(words)|
  {
    if k < |words| {
      ConcatOfFirst(words[..|words| - 1], k);
      assert words[..|words| - 1][..k] == words[..k];
    } else {
      assert words[..k] == words;
    }
  }

  lemma BeginsInside(words: seq<string>, i: nat)
    requires BeginsAt(words, i)
    ensures i <= |Concat(words)|
  {
    var k :| 0 <= k < |words| && |Concat(words[..k])| == i;
    ConcatOfFirst(words, k);
  }

  lemma SoFarBeginsNext(name: string, k: nat, j: nat)
    requires j <= k && 0 < k < |name| && HoldsNoSign(name)
    requires CutAt(name, k).start >= 0 && |Concat(CutAt(name, k).words)| == CutAt(name, k).start
    requires j < k ==> (BeginsAt(SoFar(name, k), j) <==> j == 0 || BreaksAt(name, j))
    ensures CutAt(name, k + 1).start >= 0 && |Concat(CutAt(name, k + 1).words)| == CutAt(name, k + 1).start
    ensures BeginsAt(SoFar(name, k + 1), j) <==> j == 0 || BreaksAt(name, j)
  {
    assert IsWordChar(name[k]) by {
      assert name[k] in name;
    }
    hide *;
    BreakStartsWord(name, k);
    SoFarGrows(name, k);
    var c, next := CutAt(name, k), CutAt(name, k + 1);
    var w := Lower(name[c.start..k]);
    CountsItself(name, c.start, k);
    ConcatAppend(c.words, w);
    BeginsWithOneMore(c.words, w, j);
    BeginsWithOneMore(next.words, Lower(name[next.start..k + 1]), j);
    if j == k && BeginsAt(c.words, j) {
      BeginsInside(c.words, j);
    }
  }

  lemma FirstBegins(name: string)
    requires 0 < |name| && HoldsNoSign(name)
    ensures CutAt(name, 1).start >= 0 && |Concat(CutAt(name, 1).words)| == CutAt(name, 1).start
    ensures BeginsAt(SoFar(name, 1), 0)
  {
    assert name[0] in name;
    assert CutAt(name, 0) == Cut([], -1);
    assert SoFar(name, 1)[..0] == [];
  }

  lemma {:induction false} SoFarBegins(name: string, i: nat, j: nat)
    requires j < i <= |name| && HoldsNoSign(name)
    ensures CutAt(name, i).start >= 0 && |Concat(CutAt(name, i).words)| == CutAt(name, i).start
    ensures BeginsAt(SoFar(name, i), j) <==> j == 0 || BreaksAt(name, j)
    decreases i
  {
    hide *;
    if i == 1 {
      FirstBegins(name);
    } else {
      SoFarBegins(name, i - 1, if j < i - 1 then j else 0);
      SoFarBeginsNext(name, i - 1, j);
    }
  }

  lemma CountsItself(name: string, from: int, to: nat)
    requires 0 <= from <= to <= |name|
    ensures |Lower(name[from..to])| == to - from
  {
  }

  /** Of a name without signs, the words begin exactly at its breaks. */
  lemma WordsBeginExactlyAtBreaks(name: string, i: nat)
    requires 0 < i < |name| && HoldsNoSign(name)
    ensures BeginsAt(WordsOf(name), i) <==> BreaksAt(name, i)
  {
    SoFarBegins(name, |name|, i);
    var c := CutAt(name, |name|);
    assert name[c.start..|name|] == name[c.start..];
  }

  // ------------------------------------------------------------------ signs separate

  lemma {:induction false} CutOfFirst(a: string, rest: string, i: nat)
    requires i <= |a| && (rest == "" || KindOf(rest[0]) == Sign)
    ensures CutAt(a + rest, i) == CutAt(a, i)
  {
    if i > 0 {
      var k, name := i - 1, a + rest;
      CutOfFirst(a, rest, k);
      var c := CutAt(a, k);
      assert name[k] == a[k] && (k > 0 ==> name[k - 1] == a[k - 1]);
      assert k + 1 < |name| ==> name[k + 1] == if k + 1 < |a| then a[k + 1] else rest[0];
      assert c.start >= 0 ==> name[c.start..k] == a[c.start..k];
    }
  }

  /** The cut of the first part, moved by `shift` and after the words before. */
  function Moved(before: seq<string>, c: Cut, shift: nat): Cut {
    Cut(before + c.words, if c.start >= 0 then c.start + shift else -1)
  }

  lemma CutAtSign(a: string, c: char, b: string)
    requires KindOf(c) == Sign
    ensures CutAt(a + [c] + b, |a| + 1) == Moved(WordsOf(a), Cut([], -1), |a| + 1)
  {
    var name := a + [c] + b;
    assert name == a + ([c] + b);
    CutOfFirst(a, [c] + b, |a|);
    var before := CutAt(a, |a|);
    assert name[|a|] == c && !IsWordChar(c);
    assert before.start >= 0 ==> name[before.start..|a|] == a[before.start..];
    assert WordsOf(a) + [] == WordsOf(a);
  }

  lemma {:induction false} CutOfSecond(a: string, c: char, b: string, j: nat)
    requires KindOf(c) == Sign && j <= |b|
    ensures CutAt(a + [c] + b, |a| + 1 + j) == Moved(WordsOf(a), CutAt(b, j), |a| + 1)
  {
    if j == 0 {
      CutAtSign(a, c, b);
    } else {
      CutOfSecond(a, c, b, j - 1);
      MovedNext(a + [c] + b, |a| + 1, b, j - 1, WordsOf(a));
    }
  }

  lemma MovedNext(name: string, shift: nat, b: string, k: nat, before: seq<string>)
    requires shift + |b| == |name| && name[shift..] == b && k < |b|
    requires CutAt(name, shift + k) == Moved(before, CutAt(b, k), shift)
    ensures CutAt(name, shift + k + 1) == Moved(before, CutAt(b, k + 1), shift)
  {
    var c := CutAt(b, k);
    assert name[shift + k] == b[k] && (k > 0 ==> name[shift + k - 1] == b[k - 1]);
    assert k + 1 < |b| ==> name[shift + k + 1] == b[k + 1];
    if c.start >= 0 {
      var w := Lower(b[c.start..k]);
      assert name[shift + c.start..shift + k] == b[c.start..k];
      assert before + c.words + [w] == before + (c.words + [w]);
      assert StartsWord(name, shift + k) == StartsWord(b, k);
    }
  }

  /** A sign separates: what stands before it and what stands after it are cut each on its own. */
  lemma SignsSeparate(a: string, c: char, b: string)
    requires KindOf(c) == Sign
    ensures WordsOf(a + [c] + b) == WordsOf(a) + WordsOf(b)
  {
    CutOfSecond(a, c, b, |b|);
    WordsOfMoved(a + [c] + b, |a| + 1, b, WordsOf(a));
  }

  lemma WordsOfMoved(name: string, shift: nat, b: string, before: seq<string>)
    requires shift + |b| == |name| && name[shift..] == b
    requires CutAt(name, |name|) == Moved(before, CutAt(b, |b|), shift)
    ensures WordsOf(name) == before + WordsOf(b)
  {
    hide CutAt, Lower;
    var c := CutAt(b, |b|);
    if c.start >= 0 {
      assert name[shift + c.start..] == b[c.start..];
      assert before + c.words + [Lower(b[c.start..])] == before + (c.words + [Lower(b[c.start..])]);
    }
  }

  // ------------------------------------------------------------------ pieces that are cut back

  /** Each piece, in small letters. */
  function Lowers(pieces: seq<string>): seq<string> {
    seq(|pieces|, k requires 0 <= k < |pieces| => Lower(pieces[k]))
  }

  predicate ArePieces(pieces: seq<string>) {
    forall k :: 0 <= k < |pieces| ==> pieces[k] != "" && HoldsNoSign(pieces[k])
  }

  predicate HoldsNoEmpty(words: seq<string>) {
    forall k :: 0 <= k < |words| ==> words[k] != ""
  }

  lemma {:induction false} LowersAre(pieces: seq<string>)
    ensures Concat(Lowers(pieces)) == Lower(Concat(pieces))
  {
    if pieces != [] {
      var front, last := pieces[..|pieces| - 1], pieces[|pieces| - 1];
      LowersAre(front);
      ConcatAppend(Lowers(front), Lower(last));
      assert Lowers(pieces) == Lowers(front) + [Lower(last)];
      assert Lower(Concat(front) + last) == Lower(Concat(front)) + Lower(last);
    }
  }

  lemma LowersBegin(pieces: seq<string>, i: nat)
    ensures BeginsAt(Lowers(pieces), i) <==> BeginsAt(pieces, i)
  {
    forall k | 0 <= k < |pieces| ensures |Concat(Lowers(pieces)[..k])| == |Concat(pieces[..k])| {
      assert Lowers(pieces)[..k] == Lowers(pieces[..k]);
      LowersAre(pieces[..k]);
    }
  }

  /** Where the same text is cut at the same offsets, the words are the same. */
  lemma {:induction false} SameCuts(a: seq<string>, b: seq<string>)
    requires HoldsNoEmpty(a) && HoldsNoEmpty(b) && Concat(a) == Concat(b)
    requires forall i: nat :: 0 < i < |Concat(a)| ==> (BeginsAt(a, i) <==> BeginsAt(b, i))
    ensures a == b
  {
    if a != [] && b != [] {
      var fa, fb := a[..|a| - 1], b[..|b| - 1];
      LastBegins(a, b);
      LastBegins(b, a);
      var text := Concat(a);
      assert a[|a| - 1] == text[|Concat(fa)|..] == b[|b| - 1];
      assert Concat(fa) == text[..|Concat(fa)|] == Concat(fb);
      forall i: nat | 0 < i < |Concat(fa)| ensures BeginsAt(fa, i) <==> BeginsAt(fb, i) {
        BeginsWithOneMore(fa, a[|a| - 1], i);
        BeginsWithOneMore(fb, b[|b| - 1], i);
        assert fa + [a[|a| - 1]] == a && fb + [b[|b| - 1]] == b;
      }
      SameCuts(fa, fb);
      assert fa + [a[|a| - 1]] == a && fb + [b[|b| - 1]] == b;
    }
  }

  /** The last word of one begins no later than that of the other. */
  lemma LastBegins(a: seq<string>, b: seq<string>)
    requires a != [] && b != [] && a[|a| - 1] != "" && Concat(a) == Concat(b)
    requires forall i: nat :: 0 < i < |Concat(a)| ==> (BeginsAt(a, i) <==> BeginsAt(b, i))
    ensures |Concat(a[..|a| - 1])| <= |Concat(b[..|b| - 1])|
  {
    var fa, fb := a[..|a| - 1], b[..|b| - 1];
    var i := |Concat(fa)|;
    if i > 0 {
      assert |Concat(a[..|a| - 1])| == i && BeginsAt(a, i);
      var k :| 0 <= k < |b| && |Concat(b[..k])| == i;
      ConcatOfFirst(fb, k);
      assert fb[..k] == b[..k];
    }
  }

  lemma {:induction false} PiecesHoldNoSign(pieces: seq<string>)
    requires ArePieces(pieces)
    ensures HoldsNoSign(Concat(pieces)) && (pieces != [] ==> Concat(pieces) != "")
  {
    if pieces != [] {
      PiecesHoldNoSign(pieces[..|pieces| - 1]);
      assert HoldsNoSign(pieces[|pieces| - 1]);
    }
  }

  lemma {:induction false} LettersWithoutSigns(name: string)
    requires HoldsNoSign(name)
    ensures Letters(name) == Lower(name)
  {
    if name != "" {
      var front := name[..|name| - 1];
      assert name[|name| - 1] in name;
      LettersWithoutSigns(front);
      assert Lower(name) == Lower(front) + [LowerChar(name[|name| - 1])];
    }
  }

  /** The name made of some pieces is cut back into them exactly when its breaks are where a piece begins. */
  lemma PiecesAreCutExactlyWhen(pieces: seq<string>)
    requires ArePieces(pieces)
    ensures var name := Concat(pieces);
      WordsOf(name) == Lowers(pieces) <==>
        forall i: nat :: 0 < i < |name| ==> (BreaksAt(name, i) <==> BeginsAt(pieces, i))
  {
    var name := Concat(pieces);
    AreNotEmpty(pieces);
    SameLetters(pieces);
    hide BreaksAt, BeginsAt, WordsOf, Lowers, HoldsNoSign, ArePieces, HoldsNoEmpty, Concat;
    forall i: nat | 0 < i < |name|
      ensures BeginsAt(WordsOf(name), i) <==> BreaksAt(name, i)
      ensures BeginsAt(Lowers(pieces), i) <==> BeginsAt(pieces, i)
    {
      WordsBeginExactlyAtBreaks(name, i);
      LowersBegin(pieces, i);
    }
    if forall i: nat :: 0 < i < |name| ==> (BreaksAt(name, i) <==> BeginsAt(pieces, i)) {
      SameCuts(WordsOf(name), Lowers(pieces));
    }
  }

  lemma AreNotEmpty(pieces: seq<string>)
    requires ArePieces(pieces)
    ensures HoldsNoEmpty(Lowers(pieces)) && HoldsNoEmpty(WordsOf(Concat(pieces))) && HoldsNoSign(Concat(pieces))
  {
    PiecesHoldNoSign(pieces);
    var words := WordsOf(Concat(pieces));
    WordsArePlain(Concat(pieces));
    hide WordsOf;
    forall k | 0 <= k < |words| ensures words[k] != "" {
      assert words[k] in words;
    }
  }

  lemma SameLetters(pieces: seq<string>)
    requires ArePieces(pieces)
    ensures Concat(WordsOf(Concat(pieces))) == Concat(Lowers(pieces))
      && |Concat(Lowers(pieces))| == |Concat(pieces)|
  {
    PiecesHoldNoSign(pieces);
    LowersAre(pieces);
    WordsHoldTheLetters(Concat(pieces));
    LettersWithoutSigns(Concat(pieces));
  }

  // ------------------------------------------------------------------ styles of writing

  /** A word is written as it is, with a capital, or in capitals; figures are the same in every style. */
  datatype Style = AsIs | Capitalized | Acronym

  datatype Spelled = Spelled(word: string, style: Style)

  function Raised(c: char): char {
    if 'a' <= c <= 'z' then (c as int - 32) as char else c
  }

  predicate IsRaised(s: Spelled, i: nat) {
    s.style.Acronym? || (s.style.Capitalized? && i == 0)
  }

  function Spelling(s: Spelled): string {
    seq(|s.word|, i requires 0 <= i < |s.word| => if IsRaised(s, i) then Raised(s.word[i]) else s.word[i])
  }

  function Spellings(list: seq<Spelled>): seq<string> {
    seq(|list|, k requires 0 <= k < |list| => Spelling(list[k]))
  }

  function WordsIn(list: seq<Spelled>): seq<string> {
    seq(|list|, k requires 0 <= k < |list| => list[k].word)
  }

  predicate ArePlain(list: seq<Spelled>) {
    forall k :: 0 <= k < |list| ==> Plain(list[k].word)
  }

  predicate IsFigures(s: Spelled) {
    s.word != "" && KindOf(s.word[0]) == Figure
  }

  lemma KindIs(s: Spelled, i: nat)
    requires Plain(s.word) && i < |s.word|
    ensures |Spelling(s)| == |s.word| && LowerChar(Spelling(s)[i]) == s.word[i]
    ensures KindOf(Spelling(s)[i]) == if IsFigures(s) then Figure else if IsRaised(s, i) then Capital else Kind.Small
  {
    assert s.word[0] in s.word && s.word[i] in s.word;
  }

  lemma SpellingsArePieces(list: seq<Spelled>)
    requires ArePlain(list)
    ensures ArePieces(Spellings(list)) && Lowers(Spellings(list)) == WordsIn(list)
  {
    forall k | 0 <= k < |list|
      ensures Spellings(list)[k] != "" && HoldsNoSign(Spellings(list)[k]) && Lower(Spellings(list)[k]) == list[k].word
    {
      var s := Spelling(list[k]);
      forall i | 0 <= i < |s| ensures KindOf(s[i]) != Sign && LowerChar(s[i]) == list[k].word[i] {
        KindIs(list[k], i);
      }
    }
  }

  // ------------------------------------------------------------------ offsets of pieces

  function Offset(pieces: seq<string>, k: nat): nat
    requires k <= |pieces|
  {
    |Concat(pieces[..k])|
  }

  lemma NextOffset(pieces: seq<string>, k: nat)
    requires k < |pieces|
    ensures Offset(pieces, k + 1) == Offset(pieces, k) + |pieces[k]|
  {
    assert pieces[..k + 1] == pieces[..k] + [pieces[k]];
    ConcatAppend(pieces[..k], pieces[k]);
  }

  lemma OffsetsGrow(pieces: seq<string>, j: nat, k: nat)
    requires j <= k <= |pieces|
    ensures Offset(pieces, j) <= Offset(pieces, k)
  {
    ConcatOfFirst(pieces[..k], j);
    assert pieces[..k][..j] == pieces[..j];
  }

  lemma {:induction false} CharacterIs(pieces: seq<string>, k: nat, o: nat)
    requires k < |pieces| && o < |pieces[k]|
    ensures Offset(pieces, k) + o < |Concat(pieces)| && Concat(pieces)[Offset(pieces, k) + o] == pieces[k][o]
  {
    var front := pieces[..|pieces| - 1];
    if k < |front| {
      CharacterIs(front, k, o);
      assert front[..k] == pieces[..k];
    }
  }

  /** Every offset lies in a piece. */
  lemma {:induction false} PieceAt(pieces: seq<string>, i: nat) returns (k: nat, o: nat)
    requires i < |Concat(pieces)|
    ensures k < |pieces| && o < |pieces[k]| && i == Offset(pieces, k) + o
  {
    var front := pieces[..|pieces| - 1];
    if i < |Concat(front)| {
      k, o := PieceAt(front, i);
      assert front[..k] == pieces[..k];
    } else {
      k, o := |pieces| - 1, i - |Concat(front)|;
    }
  }

  lemma NoneBeginsInside(pieces: seq<string>, k: nat, o: nat)
    requires k < |pieces| && 0 < o < |pieces[k]|
    ensures !BeginsAt(pieces, Offset(pieces, k) + o)
  {
    NextOffset(pieces, k);
    if BeginsAt(pieces, Offset(pieces, k) + o) {
      var j :| 0 <= j < |pieces| && |Concat(pieces[..j])| == Offset(pieces, k) + o;
      if j <= k {
        OffsetsGrow(pieces, j, k);
      } else {
        OffsetsGrow(pieces, k + 1, j);
      }
    }
  }

  // ------------------------------------------------------------------ names that are cut back

  predicate IsSmallAt(s: Spelled, i: nat) {
    !IsFigures(s) && !IsRaised(s, i)
  }

  /** Two words written one after the other are told apart. */
  predicate ToldApart(a: Spelled, b: Spelled) {
    if IsFigures(a) || IsFigures(b) then !(IsFigures(a) && IsFigures(b))
    else
      var endsSmall := a.style.AsIs? || (a.style.Capitalized? && |a.word| > 1);
      if endsSmall then !b.style.AsIs? else b.style.Capitalized? && |b.word| > 1
  }

  /** What stands after the k-th word, or after its first letter, begins with a small letter. */
  predicate GoesOnSmall(list: seq<Spelled>, k: nat, o: nat)
    requires k < |list|
  {
    if o + 1 < |list[k].word| then IsSmallAt(list[k], o + 1) else k + 1 < |list| && IsSmallAt(list[k + 1], 0)
  }

  lemma GoesOnIs(list: seq<Spelled>, k: nat, o: nat)
    requires ArePlain(list) && k < |list| && o < |list[k].word|
    ensures var pieces := Spellings(list); var name, i := Concat(pieces), Offset(pieces, k) + o;
      && i < |name| && name[i] == Spelling(list[k])[o]
      && (i + 1 < |name| && KindOf(name[i + 1]) == Kind.Small <==> GoesOnSmall(list, k, o))
  {
    var pieces := Spellings(list);
    var name, i := Concat(pieces), Offset(pieces, k) + o;
    CharacterIs(pieces, k, o);
    NextOffset(pieces, k);
    if o + 1 < |list[k].word| {
      CharacterIs(pieces, k, o + 1);
      KindIs(list[k], o + 1);
    } else if k + 1 < |list| {
      CharacterIs(pieces, k + 1, 0);
      KindIs(list[k + 1], 0);
    } else {
      assert pieces[..k + 1] == pieces;
    }
  }

  lemma BreaksInside(list: seq<Spelled>, k: nat, o: nat)
    requires ArePlain(list) && k < |list| && 0 < o < |list[k].word|
    ensures var name, i := Concat(Spellings(list)), Offset(Spellings(list), k) + o;
      && i < |name|
      && (BreaksAt(name, i) <==> !IsFigures(list[k]) && list[k].style.Acronym? && GoesOnSmall(list, k, o))
  {
    var name, i := Concat(Spellings(list)), Offset(Spellings(list), k) + o;
    GoesOnIs(list, k, o - 1);
    GoesOnIs(list, k, o);
    KindIs(list[k], o - 1);
    KindIs(list[k], o);
    assert name[i - 1] == Spelling(list[k])[o - 1] && name[i] == Spelling(list[k])[o];
  }

  lemma BreaksBetween(list: seq<Spelled>, k: nat)
    requires ArePlain(list) && k + 1 < |list|
    ensures var pieces := Spellings(list); var i := Offset(pieces, k + 1);
      && 0 < i < |Concat(pieces)|
      && (BreaksAt(Concat(pieces), i) <==>
        if IsFigures(list[k]) || IsFigures(list[k + 1]) then !(IsFigures(list[k]) && IsFigures(list[k + 1]))
        else IsRaised(list[k + 1], 0) && (IsSmallAt(list[k], |list[k].word| - 1) || GoesOnSmall(list, k + 1, 0)))
  {
    var last := |list[k].word| - 1;
    GoesOnIs(list, k, last);
    GoesOnIs(list, k + 1, 0);
    KindIs(list[k], last);
    KindIs(list[k + 1], 0);
    NextOffset(Spellings(list), k);
  }

  /**
   A name made of words, each in some style, is cut back into them exactly when each two neighbours are told apart:
   no two figures side by side, no small letter or capital that goes on with the letters before it.
   */
  lemma StylesAreCutExactlyWhen(list: seq<Spelled>)
    requires ArePlain(list)
    ensures WordsOf(Concat(Spellings(list))) == WordsIn(list) <==>
      forall k :: 0 <= k < |list| - 1 ==> ToldApart(list[k], list[k + 1])
  {
    SpellingsArePieces(list);
    PiecesAreCutExactlyWhen(Spellings(list));
    if forall k :: 0 <= k < |list| - 1 ==> ToldApart(list[k], list[k + 1]) {
      ToldApartBreaks(list);
    } else if WordsOf(Concat(Spellings(list))) == WordsIn(list) {
      BreaksToldApart(list);
    }
  }

  lemma ToldApartBreaks(list: seq<Spelled>)
    requires ArePlain(list) && forall k :: 0 <= k < |list| - 1 ==> ToldApart(list[k], list[k + 1])
    ensures var pieces := Spellings(list); var name := Concat(pieces);
      forall i: nat :: 0 < i < |name| ==> (BreaksAt(name, i) <==> BeginsAt(pieces, i))
  {
    var pieces := Spellings(list);
    var name := Concat(pieces);
    forall i: nat | 0 < i < |name| ensures BreaksAt(name, i) <==> BeginsAt(pieces, i) {
      var k, o := PieceAt(pieces, i);
      if o > 0 {
        BreaksInside(list, k, o);
        NoneBeginsInside(pieces, k, o);
        assert k + 1 < |list| ==> ToldApart(list[k], list[k + 1]);
      } else {
        assert k > 0 by { assert pieces[..0] == []; }
        BreaksBetween(list, k - 1);
        assert ToldApart(list[k - 1], list[k]);
      }
    }
  }

  lemma BreaksToldApart(list: seq<Spelled>)
    requires ArePlain(list)
    requires var pieces := Spellings(list); var name := Concat(pieces);
      forall i: nat :: 0 < i < |name| ==> (BreaksAt(name, i) <==> BeginsAt(pieces, i))
    ensures forall k :: 0 <= k < |list| - 1 ==> ToldApart(list[k], list[k + 1])
  {
    var pieces := Spellings(list);
    forall k | 0 <= k < |list| - 1 ensures ToldApart(list[k], list[k + 1]) {
      BreaksBetween(list, k);
      assert BeginsAt(pieces, Offset(pieces, k + 1));
      if k + 2 < |list| {
        BreaksBetween(list, k + 1);
        assert BeginsAt(pieces, Offset(pieces, k + 2));
      }
    }
  }

  // ------------------------------------------------------------------ camelCase and PascalCase

  /** The words with a capital each, the first one in some other style where it is given one. */
  function Cased(words: seq<string>, first: Style): seq<Spelled> {
    seq(|words|, k requires 0 <= k < |words| => Spelled(words[k], if k == 0 then first else Capitalized))
  }

  predicate HoldsFigures(word: string) {
    word != "" && '0' <= word[0] <= '9'
  }

  /**
   Words written in camelCase (`first` is AsIs) or in PascalCase (`first` is Capitalized) are cut back exactly when
   no two figures are side by side and no single letter with a capital is followed by another single letter.
   */
  lemma CamelCaseIsCutExactlyWhen(words: seq<string>, first: Style)
    requires !first.Acronym? && forall w :: w in words ==> Plain(w)
    ensures WordsOf(Concat(Spellings(Cased(words, first)))) == words <==>
      forall k :: 0 <= k < |words| - 1 ==>
        if HoldsFigures(words[k]) || HoldsFigures(words[k + 1]) then
          !(HoldsFigures(words[k]) && HoldsFigures(words[k + 1]))
        else |words[k]| > 1 || |words[k + 1]| > 1 || (k == 0 && first.AsIs?)
  {
    var list := Cased(words, first);
    assert WordsIn(list) == words;
    StylesAreCutExactlyWhen(list);
    hide ToldApart, HoldsFigures, WordsOf, Concat, Spellings;
    forall k | 0 <= k < |list| - 1
      ensures ToldApart(list[k], list[k + 1]) <==>
        if HoldsFigures(words[k]) || HoldsFigures(words[k + 1]) then
          !(HoldsFigures(words[k]) && HoldsFigures(words[k + 1]))
        else |words[k]| > 1 || |words[k + 1]| > 1 || (k == 0 && first.AsIs?)
    {
      CasedAreToldApart(words[k], words[k + 1], if k == 0 then first else Capitalized);
    }
  }

  lemma CasedAreToldApart(a: string, b: string, style: Style)
    requires Plain(a) && Plain(b) && !style.Acronym?
    ensures ToldApart(Spelled(a, style), Spelled(b, Capitalized)) <==>
      if HoldsFigures(a) || HoldsFigures(b) then !(HoldsFigures(a) && HoldsFigures(b))
      else |a| > 1 || |b| > 1 || style.AsIs?
  {
  }
}
