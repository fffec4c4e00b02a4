/** The words of a field name, and whether a name holds a redacted word: ASCII names. */
module RedactedWords {
  import opened Strings

  predicate IsUpper(c: char) { 'A' <= c <= 'Z' }

  predicate IsLower(c: char) { 'a' <= c <= 'z' }

  predicate IsWordChar(c: char) { IsUpper(c) || IsLower(c) || IsDigit(c) }

  /** A new word at position i: small letter then capital, letter next to digit, or the last capital of an acronym. */
  predicate StartsWord(name: string, i: nat)
    requires 0 < i < |name|
  {
    var previous, current := name[i - 1], name[i];
    || (IsLower(previous) && IsUpper(current))
    || IsDigit(previous) != IsDigit(current)
    || (IsUpper(previous) && IsUpper(current) && i + 1 < |name| && IsLower(name[i + 1]))
  }

  /** The words completed before position i, and where the current one started (-1: none). */
  datatype Cut = Cut(words: seq<string>, start: int)

  function CutAt(name: string, i: nat): (c: Cut)
    requires i <= |name|
    ensures -1 <= c.start < i || (i == 0 && c.start == -1)
  {
    if i == 0 then Cut([], -1)
    else
      var c, k := CutAt(name, i - 1), i - 1;
      if !IsWordChar(name[k]) then
        Cut(if c.start >= 0 then c.words + [Lower(name[c.start..k])] else c.words, -1)
      else if c.start >= 0 && StartsWord(name, k) then
        Cut(c.words + [Lower(name[c.start..k])], k)
      else if c.start < 0 then Cut(c.words, k)
      else c
  }

  function WordsOf(name: string): seq<string> {
    var c := CutAt(name, |name|);
    if c.start >= 0 then c.words + [Lower(name[c.start..])] else c.words
  }

  method Words(name: string) returns (words: seq<string>)
    ensures words == WordsOf(name)
  {
    words := [];
    var start := -1;
    for i := 0 to |name|
      invariant Cut(words, start) == CutAt(name, i)
    {
      if !IsWordChar(name[i]) {
        if start >= 0 {
          words := words + [Lower(name[start..i])];
        }
        start := -1;
        continue;
      }
      if start >= 0 && StartsWord(name, i) {
        words := words + [Lower(name[start..i])];
        start := i;
      }
      if start < 0 {
        start := i;
      }
    }
    if start >= 0 {
      words := words + [Lower(name[start..])];
    }
  }

  // ------------------------------------------------------------------ what the words are

  function Letters(name: string): string {
    if name == "" then ""
    else Letters(name[..|name| - 1]) + if IsWordChar(name[|name| - 1]) then [LowerChar(name[|name| - 1])] else ""
  }

  function Concat(words: seq<string>): string {
    if words == [] then "" else Concat(words[..|words| - 1]) + words[|words| - 1]
  }

  /** All digits or all letters, at least one. */
  predicate Plain(word: string) {
    word != "" && ((forall c :: c in word ==> IsDigit(c)) || (forall c :: c in word ==> IsLower(c)))
  }

  /** The piece of the name from `start` to `i` is a word under construction: letters only or digits only. */
  predicate Uniform(name: string, start: nat, i: nat)
    requires start < i <= |name|
  {
    && (forall k :: start <= k < i ==> IsWordChar(name[k]))
    && (forall k :: start <= k < i ==> IsDigit(name[k]) == IsDigit(name[start]))
  }

  lemma UniformIsPlain(name: string, start: nat, i: nat)
    requires start < i <= |name| && Uniform(name, start, i)
    ensures Plain(Lower(name[start..i]))
  {
    var w := Lower(name[start..i]);
    forall c | c in w ensures if IsDigit(name[start]) then IsDigit(c) else IsLower(c) {
      var k :| 0 <= k < |w| && w[k] == c;
      assert w[k] == LowerChar(name[start + k]);
    }
  }

  lemma {:induction false} CutIsPlain(name: string, i: nat)
    requires i <= |name|
    ensures forall w :: w in CutAt(name, i).words ==> Plain(w)
    ensures CutAt(name, i).start >= 0 ==> Uniform(name, CutAt(name, i).start, i)
  {
    if i > 0 {
      CutIsPlain(name, i - 1);
      var c := CutAt(name, i - 1);
      if c.start >= 0 {
        UniformIsPlain(name, c.start, i - 1);
      }
    }
  }

  lemma WordsArePlain(name: string)
    ensures forall w :: w in WordsOf(name) ==> Plain(w)
  {
    CutIsPlain(name, |name|);
    var c := CutAt(name, |name|);
    if c.start >= 0 {
      UniformIsPlain(name, c.start, |name|);
      assert name[c.start..|name|] == name[c.start..];
    }
  }

  lemma ConcatAppend(words: seq<string>, w: string)
    ensures Concat(words + [w]) == Concat(words) + w
  {
    assert (words + [w])[..|words|] == words;
  }

  lemma LowerOneMore(name: string, from: nat, to: nat)
    requires from <= to < |name|
    ensures Lower(name[from..to + 1]) == Lower(name[from..to]) + [LowerChar(name[to])]
    ensures from == to ==> Lower(name[from..to + 1]) == [LowerChar(name[to])]
  {
  }

  /** The characters of the words completed before i and of the one under construction. */
  function Held(name: string, i: nat): string
    requires i <= |name|
  {
    var c := CutAt(name, i);
    Concat(c.words) + if c.start >= 0 then Lower(name[c.start..i]) else ""
  }

  lemma HeldOneMore(name: string, k: nat)
    requires k < |name|
    ensures Held(name, k + 1) == Held(name, k) + if IsWordChar(name[k]) then [LowerChar(name[k])] else ""
  {
    var c, next := CutAt(name, k), CutAt(name, k + 1);
    LowerOneMore(name, k, k);
    if c.start < 0 {
      assert next == if IsWordChar(name[k]) then Cut(c.words, k) else c;
    } else {
      ConcatAppend(c.words, Lower(name[c.start..k]));
      LowerOneMore(name, c.start, k);
      if !IsWordChar(name[k]) {
        assert next == Cut(c.words + [Lower(name[c.start..k])], -1);
      } else if StartsWord(name, k) {
        assert next == Cut(c.words + [Lower(name[c.start..k])], k);
      } else {
        assert next == c;
      }
    }
  }

  lemma {:induction false} CutHoldsLetters(name: string, i: nat)
    requires i <= |name|
    ensures Held(name, i) == Letters(name[..i])
  {
    if i > 0 {
      CutHoldsLetters(name, i - 1);
      HeldOneMore(name, i - 1);
      assert name[..i][..i - 1] == name[..i - 1];
    } else {
      assert name[..0] == "";
    }
  }

  /** Put end to end, the words are the letters and digits of the name, in small letters. */
  lemma WordsHoldTheLetters(name: string)
    ensures Concat(WordsOf(name)) == Letters(name)
  {
    CutHoldsLetters(name, |name|);
    assert name[..|name|] == name;
    var c := CutAt(name, |name|);
    if c.start >= 0 {
      assert name[c.start..|name|] == name[c.start..];
      ConcatAppend(c.words, Lower(name[c.start..]));
    }
  }

  /** Words begin exactly after a separator and at the breaks of style inside a run of letters and digits. */
  lemma WordsBeginAtBreaks(name: string, i: nat)
    requires i < |name|
    ensures CutAt(name, i + 1).start == i
       <==> IsWordChar(name[i]) && (i == 0 || !IsWordChar(name[i - 1]) || StartsWord(name, i))
  {
    if i > 0 {
      assert CutAt(name, i).start >= 0 <==> IsWordChar(name[i - 1]) by {
        var c := CutAt(name, i - 1);
      }
    }
  }

  // ------------------------------------------------------------------ writing styles

  /** The words written with a separator between them. */
  function Joined(words: seq<string>, separator: string): string {
    if words == [] then ""
    else if |words| == 1 then words[0]
    else Joined(words[..|words| - 1], separator) + separator + words[|words| - 1]
  }

  predicate Separates(separator: string) {
    separator != "" && forall c :: c in separator ==> !IsWordChar(c)
  }

  lemma {:induction false} CutOverWord(name: string, a: nat, b: nat, words: seq<string>)
    requires a < b <= |name| && Plain(name[a..b])
    requires CutAt(name, a) == Cut(words, -1)
    ensures CutAt(name, b) == Cut(words, a)
    decreases b
  {
    var w := name[a..b];
    assert w[b - a - 1] == name[b - 1] && w[b - a - 1] in w;
    if b > a + 1 {
      assert forall c :: c in name[a..b - 1] ==> c in w by {
        assert name[a..b - 1] == w[..b - a - 1];
      }
      CutOverWord(name, a, b - 1, words);
      assert w[b - a - 2] == name[b - 2] && w[b - a - 2] in w;
    }
  }

  lemma {:induction false} CutOverSeparator(name: string, a: nat, b: nat, words: seq<string>, start: nat)
    requires start < a < b <= |name| && forall c :: c in name[a..b] ==> !IsWordChar(c)
    requires CutAt(name, a) == Cut(words, start)
    ensures CutAt(name, b) == Cut(words + [Lower(name[start..a])], -1)
    decreases b
  {
    var s := name[a..b];
    assert s[b - a - 1] == name[b - 1] && s[b - a - 1] in s;
    if b > a + 1 {
      assert name[a..b - 1] == s[..b - a - 1];
      CutOverSeparator(name, a, b - 1, words, start);
    }
  }

  lemma LowerPlain(w: string)
    requires Plain(w)
    ensures Lower(w) == w
  {
    forall i | 0 <= i < |w| ensures LowerChar(w[i]) == w[i] {
      assert w[i] in w;
    }
  }

  /** After the first k words of a written list, the cut has all but the last, and is on the last. */
  lemma {:induction false} CutOverList(words: seq<string>, separator: string, name: string)
    requires words != [] && Separates(separator) && forall w :: w in words ==> Plain(w)
    requires |Joined(words, separator)| <= |name| && name[..|Joined(words, separator)|] == Joined(words, separator)
    ensures var n := |Joined(words, separator)|;
            CutAt(name, n) == Cut(words[..|words| - 1], n - |words[|words| - 1]|)
  {
    var text := Joined(words, separator);
    var last := words[|words| - 1];
    var n := |text|;
    assert last in words;
    if |words| == 1 {
      assert name[0..n] == last;
      CutOverWord(name, 0, n, []);
      assert words[..0] == [];
    } else {
      var init := words[..|words| - 1];
      var a, b := |Joined(init, separator)|, |Joined(init, separator)| + |separator|;
      assert name[..a] == text[..a] == Joined(init, separator);
      CutOverList(init, separator, name);
      assert name[a..b] == text[a..b] == separator;
      var previous := init[|init| - 1];
      assert previous in words;
      CutOverSeparator(name, a, b, init[..|init| - 1], a - |previous|);
      JoinedEnds(init, separator);
      assert name[a - |previous|..a] == text[..a][a - |previous|..] == previous;
      LowerPlain(previous);
      assert init == init[..|init| - 1] + [previous];
      assert name[b..n] == text[b..] == last;
      CutOverWord(name, b, n, init);
    }
  }

  lemma JoinedEnds(words: seq<string>, separator: string)
    requires words != []
    ensures var text, last := Joined(words, separator), words[|words| - 1];
            |last| <= |text| && text[|text| - |last|..] == last
  {
  }

  /** Writing the words with any separator and cutting again gives the same words. */
  lemma WritingStyleDoesNotMatter(words: seq<string>, separator: string)
    requires Separates(separator) && forall w :: w in words ==> Plain(w)
    ensures WordsOf(Joined(words, separator)) == words
  {
    if words != [] {
      var text, last := Joined(words, separator), words[|words| - 1];
      assert text[..|text|] == text;
      CutOverList(words, separator, text);
      JoinedEnds(words, separator);
      assert last in words;
      LowerPlain(last);
      assert words == words[..|words| - 1] + [last];
    }
  }

  // ------------------------------------------------------------------ redaction

  predicate OccursAt(words: seq<string>, redacted: seq<string>, i: nat) {
    i + |redacted| <= |words| && words[i..i + |redacted|] == redacted
  }

  /** Some redacted word list is a contiguous part of the words. */
  ghost predicate HoldsRedacted(words: seq<string>, lists: seq<seq<string>>) {
    exists r, i: nat :: r in lists && OccursAt(words, r, i)
  }

  ghost predicate IsAround(words: seq<string>, a: seq<string>, r: seq<string>, b: seq<string>) {
    words == a + r + b
  }

  /** A name holds a redacted word exactly when its words are those of some list, with any words before and after. */
  lemma HoldsExactlyWhen(words: seq<string>, lists: seq<seq<string>>)
    ensures HoldsRedacted(words, lists) <==> exists r, a, b :: r in lists && IsAround(words, a, r, b)
  {
    if HoldsRedacted(words, lists) {
      var r, i: nat :| r in lists && OccursAt(words, r, i);
      assert IsAround(words, words[..i], r, words[i + |r|..]);
    }
    if exists r, a, b :: r in lists && IsAround(words, a, r, b) {
      var r, a, b :| r in lists && IsAround(words, a, r, b);
      assert OccursAt(words, r, |a|);
    }
  }

  method ContainsRedactedWord(name: string, lists: seq<seq<string>>) returns (found: bool)
    ensures found <==> HoldsRedacted(WordsOf(name), lists)
  {
    if |lists| == 0 { return false; }
    var words := Words(name);
    for k := 0 to |lists|
      invariant forall r, i: nat :: r in lists[..k] ==> !OccursAt(words, r, i)
    {
      var redacted := lists[k];
      var i := 0;
      while i + |redacted| <= |words|
        invariant forall h: nat :: h < i ==> !OccursAt(words, redacted, h)
      {
        var j := 0;
        while j < |redacted| && words[i + j] == redacted[j]
          invariant j <= |redacted|
          invariant words[i..i + j] == redacted[..j]
        {
          j := j + 1;
        }
        if j == |redacted| {
          assert OccursAt(words, redacted, i);
          return true;
        }
        assert words[i..i + |redacted|][j] != redacted[j];
        i := i + 1;
      }
      assert lists[..k + 1] == lists[..k] + [redacted];
    }
    assert lists[..|lists|] == lists;
    found := false;
  }

  /** A name and its words written in any other style hold a redacted word alike. */
  lemma MaskingIgnoresStyle(name: string, separator: string, lists: seq<seq<string>>)
    requires Separates(separator)
    ensures HoldsRedacted(WordsOf(name), lists) <==> HoldsRedacted(WordsOf(Joined(WordsOf(name), separator)), lists)
  {
    WordsArePlain(name);
    WritingStyleDoesNotMatter(WordsOf(name), separator);
  }

  /** Masked: one of the exact names, case ignored, or a name that holds a redacted word. */
  ghost predicate IsRedacted(fields: set<string>, lists: seq<seq<string>>, name: string) {
    Lower(name) in fields || HoldsRedacted(WordsOf(name), lists)
  }

  /** In another style a name is masked alike exactly when it holds a redacted word, or both are exact names or none. */
  lemma StyleIsIgnoredExactlyWhen(fields: set<string>, lists: seq<seq<string>>, name: string, separator: string)
    requires Separates(separator)
    ensures var other := Joined(WordsOf(name), separator);
      (IsRedacted(fields, lists, name) <==> IsRedacted(fields, lists, other))
      <==> HoldsRedacted(WordsOf(name), lists) || (Lower(name) in fields <==> Lower(other) in fields)
  {
    MaskingIgnoresStyle(name, separator, lists);
  }

  /** With the exact name "ab" and no words: "aB" is masked, and not in another style. */
  lemma ExactNameDependsOnStyle()
    ensures var other := Joined(WordsOf("aB"), "_");
      IsRedacted({"ab"}, [], "aB") && !IsRedacted({"ab"}, [], other)
  {
    var name := "aB";
    assert CutAt(name, 1) == Cut([], 0);
    assert name[0..1] == "a" && name[1..] == "B" && Lower("a") == "a" && Lower("B") == "b" && Lower(name) == "ab";
    assert CutAt(name, 2) == Cut(["a"], 1);
    assert WordsOf(name) == ["a", "b"];
    assert ["a", "b"][..1] == ["a"];
    assert Joined(["a", "b"], "_") == "a_b";
    assert |Lower("a_b")| == 3;
  }
}
