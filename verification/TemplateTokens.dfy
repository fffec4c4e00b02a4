/** What stands at an offset of a template line, told from the characters of the line: exactly when, and what. */
module TemplateTokens {
  import opened Template

  // ------------------------------------------------------------------ first places

  /** The first place from an offset on that holds the character, if there is one. */
  predicate IsFirst(s: string, from: nat, c: char, r: int) {
    if r < 0 then forall k :: from <= k < |s| ==> s[k] != c
    else from <= r < |s| && s[r] == c && forall k :: from <= k < r ==> s[k] != c
  }

  predicate IsFirstPair(s: string, from: nat, c: char, r: int) {
    if r < 0 then forall k :: from <= k < |s| ==> !Pair(s, k, c)
    else from <= r && Pair(s, r, c) && forall k :: from <= k < r ==> !Pair(s, k, c)
  }

  lemma {:induction false} FindIsFirst(s: string, from: nat, c: char)
    ensures IsFirst(s, from, c, Find(s, from, c))
    decreases |s| - from
  {
    if from < |s| && s[from] != c {
      FindIsFirst(s, from + 1, c);
    }
  }

  lemma {:induction false} FindPairIsFirst(s: string, from: nat, c: char)
    ensures IsFirstPair(s, from, c, FindPair(s, from, c))
    decreases |s| - from
  {
    if from < |s| && !Pair(s, from, c) {
      FindPairIsFirst(s, from + 1, c);
    }
  }

  lemma {:induction false} SubIsSlice(s: string, from: nat, count: nat)
    requires from + count <= |s|
    ensures Sub(s, from, count) == s[from..from + count]
    decreases count
  {
    if count > 0 {
      SubIsSlice(s, from + 1, count - 1);
      assert s[from..from + count] == [s[from]] + s[from + 1..from + count];
    }
  }

  /** Parentheses opened less those closed. */
  function Depth(s: string, from: nat, to: nat): int
    requires from <= to <= |s|
    decreases |s| - from
  {
    if from == to then 0
    else (if s[from] == '(' then 1 else if s[from] == ')' then -1 else 0) + Depth(s, from + 1, to)
  }

  /** The first parenthesis that closes, `depth` others being open at `from`. */
  predicate IsFirstEnd(s: string, from: nat, depth: nat, r: int) {
    if r < 0 then forall k :: from <= k < |s| ==> !(s[k] == ')' && depth + Depth(s, from, k) == 0)
    else
      && from <= r < |s| && s[r] == ')' && depth + Depth(s, from, r) == 0
      && forall k :: from <= k < r ==> !(s[k] == ')' && depth + Depth(s, from, k) == 0)
  }

  lemma {:induction false} ParenthesisEndIsFirst(s: string, from: nat, depth: nat)
    ensures IsFirstEnd(s, from, depth, ParenthesisEnd(s, from, depth))
    decreases |s| - from
  {
    if from < |s| {
      if s[from] == '(' {
        ParenthesisEndIsFirst(s, from + 1, depth + 1);
      } else if s[from] != ')' {
        ParenthesisEndIsFirst(s, from + 1, depth);
      } else if depth > 0 {
        ParenthesisEndIsFirst(s, from + 1, depth - 1);
      }
    }
  }

  // ------------------------------------------------------------------ italic ends

  /** An underscore that no letter and no digit follows. */
  predicate EndsItalic(p: Platform, s: string, k: nat) {
    k < |s| && s[k] == '_' && (k + 1 == |s| || !p.letterOrDigit(s[k + 1]))
  }

  /** Two opening braces, with closing ones somewhere after. */
  predicate OpensBraces(s: string, k: nat) {
    Pair(s, k, '{') && exists m :: k <= m < |s| && Pair(s, m, '}')
  }

  predicate IsQuiet(p: Platform, s: string, from: nat, to: nat) {
    forall k :: from <= k < to && k < |s| ==> !EndsItalic(p, s, k) && !OpensBraces(s, k)
  }

  lemma BracesOpen(s: string, k: nat)
    ensures OpensBraces(s, k) <==> Pair(s, k, '{') && FindPair(s, k, '}') > 0
  {
    FindPairIsFirst(s, k, '}');
  }

  /** Up to the first place where an italic part ends or braces open, nothing is decided. */
  lemma {:induction false} QuietIsPassed(p: Platform, s: string, from: nat, to: nat)
    requires from <= to <= |s| && IsQuiet(p, s, from, to)
    ensures ItalicEndOf(p, s, from) == ItalicEndOf(p, s, to)
    decreases |s| - from
  {
    if from < to {
      BracesOpen(s, from);
      assert !EndsItalic(p, s, from) && !OpensBraces(s, from);
      QuietIsPassed(p, s, from + 1, to);
    }
  }

  /**
   An italic part ends at the first underscore that no letter and no digit follows, what stands between opening braces
   and the first closing ones after them left out; without such an underscore it does not end.
   */
  lemma ItalicEndIs(p: Platform, s: string, from: nat, k: nat)
    requires from <= k <= |s| && IsQuiet(p, s, from, k)
    ensures k == |s| ==> ItalicEndOf(p, s, from) == -1
    ensures EndsItalic(p, s, k) ==> ItalicEndOf(p, s, from) == k
    ensures OpensBraces(s, k) ==>
      IsFirstPair(s, k, '}', FindPair(s, k, '}')) && FindPair(s, k, '}') > k
      && ItalicEndOf(p, s, from) == ItalicEndOf(p, s, FindPair(s, k, '}') + 2)
  {
    QuietIsPassed(p, s, from, k);
    BracesOpen(s, k);
    FindPairIsFirst(s, k, '}');
  }

  // ------------------------------------------------------------------ each kind of token

  lemma EscapeIsRead(p: Platform, s: string, i: nat)
    requires i + 1 < |s| && s[i] == '\\'
    ensures TokenAt(p, s, i) == Letter(s[i + 1], i + 2)
  {
  }

  /** The trimmed stretch up to the first closing braces is a name. */
  ghost predicate IsVariableUpTo(p: Platform, s: string, i: nat, end: int) {
    end >= i + 2 && end <= |s| && IsFirstPair(s, i + 2, '}', end) && IsName(p, Trim(p, s[i + 2..end]))
  }

  lemma VariableExactlyWhen(p: Platform, s: string, i: nat)
    requires i < |s|
    ensures var t, end := TokenAt(p, s, i), FindPair(s, i + 2, '}');
      && (t.VarToken? <==> Pair(s, i, '{') && IsVariableUpTo(p, s, i, end))
      && (t.VarToken? ==> t.name == Lower(p, Trim(p, s[i + 2..end])) && t.next == end + 2)
  {
    var end := FindPair(s, i + 2, '}');
    FindPairIsFirst(s, i + 2, '}');
    if end >= i + 2 {
      SubIsSlice(s, i + 2, end - i - 2);
    }
  }

  /** Two stars that two others do not follow at once, but do later; what stands between them is bold. */
  lemma BoldExactlyWhen(p: Platform, s: string, i: nat)
    requires i < |s|
    ensures var t, end := TokenAt(p, s, i), FindPair(s, i + 2, '*');
      && (t.BoldToken? <==> Pair(s, i, '*') && !Pair(s, i + 2, '*') && exists k :: i + 2 < k < |s| && Pair(s, k, '*'))
      && (t.BoldToken? ==> IsFirstPair(s, i + 2, '*', end) && t == BoldToken(s[i + 2..end], end + 2))
  {
    var end := FindPair(s, i + 2, '*');
    FindPairIsFirst(s, i + 2, '*');
    if end > i + 2 {
      SubIsSlice(s, i + 2, end - i - 2);
    }
  }

  /** An underscore that no letter and no digit precedes, and that one ending an italic part follows, not at once. */
  lemma ItalicExactlyWhen(p: Platform, s: string, i: nat)
    requires i < |s|
    ensures var t, end := TokenAt(p, s, i), ItalicEndOf(p, s, i + 1);
      && (t.ItalicToken? <==> s[i] == '_' && (i == 0 || !p.letterOrDigit(s[i - 1])) && end > i + 1)
      && (t.ItalicToken? ==> t == ItalicToken(s[i + 1..end], end + 1))
  {
    var end := ItalicEndOf(p, s, i + 1);
    if end > i + 1 {
      SubIsSlice(s, i + 1, end - i - 1);
    }
  }

  /** From the bracket at `start`: the first closing one at `close`, a parenthesis, and the one that closes it. */
  ghost predicate AreBrackets(s: string, start: nat, close: int, end: int) {
    && IsFirst(s, start + 1, ']', close) && 0 <= close && close + 2 <= |s| && s[close + 1] == '('
    && 0 <= end && IsFirstEnd(s, close + 2, 0, end)
  }

  lemma BracketsExactlyWhen(s: string, start: nat)
    requires start < |s|
    ensures var r, close := BracketsAt(s, start), Find(s, start + 1, ']');
      var end := ParenthesisEnd(s, if close < 0 then 0 else close + 2, 0);
      && (r.Brackets? <==> AreBrackets(s, start, close, end))
      && (r.Brackets? ==> r == Brackets(s[start + 1..close], s[close + 2..end], end + 1))
  {
    hide Find, ParenthesisEnd, Sub, IsFirst, IsFirstEnd;
    var close := Find(s, start + 1, ']');
    FindIsFirst(s, start + 1, ']');
    if 0 <= close && close + 1 < |s| && s[close + 1] == '(' {
      ParenthesisEndIsFirst(s, close + 2, 0);
      var end := ParenthesisEnd(s, close + 2, 0);
      SubIsSlice(s, start + 1, close - start - 1);
      if end >= 0 {
        SubIsSlice(s, close + 2, end - close - 2);
      }
    }
  }

  /** A mention is an at sign before brackets with a target; a link is brackets. */
  lemma LinkExactlyWhen(p: Platform, s: string, i: nat)
    requires i < |s|
    ensures var t := TokenAt(p, s, i);
      && (t.LinkToken? <==> s[i] == '[' && BracketsAt(s, i).Brackets?)
      && (t.LinkToken? ==> var b := BracketsAt(s, i); t == LinkToken(b.text, Trim(p, b.target), b.next))
      && (t.MentionToken? <==>
          s[i] == '@' && i + 1 < |s| && s[i + 1] == '[' && BracketsAt(s, i + 1).Brackets?
          && BracketsAt(s, i + 1).target != "")
      && (t.MentionToken? ==> var b := BracketsAt(s, i + 1);
          t == MentionToken(Trim(p, b.text), Trim(p, b.target), b.next))
  {
  }

  /** Any other character stands for itself. */
  lemma OtherIsLetter(p: Platform, s: string, i: nat)
    requires i < |s| && TokenAt(p, s, i).Letter? && (s[i] != '\\' || i + 1 == |s|)
    ensures TokenAt(p, s, i) == Letter(s[i], i + 1)
  {
  }
}
