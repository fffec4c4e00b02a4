/**
 A text of the settings read after it was trimmed or put in small letters: the check reads the same text, or the
 same in small letters. The automatic grouping compares trimmed texts without case, the check compares texts that
 it has read; these laws say what two texts have in common for the check when they are one for the grouping.
 */
module EnvironmentReading {
  import opened Strings
  import opened EnvironmentText

  // ------------------------------------------------------------------ trimmed before it is read

  lemma {:induction false} TrimStartOfMore(s: string, c: char)
    ensures TrimStart(s + [c]) ==
      if TrimStart(s) != "" then TrimStart(s) + [c] else if IsWhite(c) then "" else [c]
  {
    if s == "" {
      assert "" + [c] == [c];
    } else if IsWhite(s[0]) {
      TrimStartOfMore(s[1..], c);
      assert (s + [c])[1..] == s[1..] + [c];
    }
  }

  lemma TrimOfWhiteEnd(s: string, c: char)
    requires IsWhite(c)
    ensures Trim(s + [c]) == Trim(s)
  {
    TrimStartOfMore(s, c);
    if TrimStart(s) != "" {
      assert (TrimStart(s) + [c])[..|TrimStart(s)|] == TrimStart(s);
    }
  }

  lemma TrimOfWhiteStart(c: char, s: string)
    requires IsWhite(c)
    ensures Trim([c] + s) == Trim(s)
  {
    assert ([c] + s)[1..] == s;
  }

  lemma {:induction false} PiecesOfMore(fields: seq<string>, last: string)
    ensures Pieces(fields + [last]) == Pieces(fields) + (if Trim(last) == "" then [] else [Trim(last)])
  {
    if fields == [] {
      assert [] + [last] == [last] && [last][1..] == [];
    } else {
      PiecesOfMore(fields[1..], last);
      assert (fields + [last])[1..] == fields[1..] + [last];
    }
  }

  /** The stretches of a text with one more character at its end. */
  function OneMore(fields: seq<string>, c: char): seq<string>
    requires fields != []
  {
    if IsBreak(c) then fields + [""] else fields[..|fields| - 1] + [fields[|fields| - 1] + [c]]
  }

  lemma OneMoreBefore(first: string, fields: seq<string>, c: char)
    requires fields != []
    ensures OneMore([first] + fields, c) == [first] + OneMore(fields, c)
  {
    assert ([first] + fields)[..|fields|] == [first] + fields[..|fields| - 1];
  }

  lemma OneMoreInFirst(first: string, fields: seq<string>, c: char)
    requires fields != []
    ensures var r := OneMore(fields, c);
      OneMore([first + fields[0]] + fields[1..], c) == [first + r[0]] + r[1..]
  {
    if |fields| == 1 {
      assert fields == [fields[0]];
      assert first + fields[0] + [c] == first + (fields[0] + [c]);
    } else {
      OneMoreBefore(first + fields[0], fields[1..], c);
      OneMoreBefore(fields[0], fields[1..], c);
      assert fields == [fields[0]] + fields[1..];
    }
  }

  lemma {:induction false} FieldsOfMore(s: string, c: char)
    ensures Fields(s + [c]) == OneMore(Fields(s), c)
  {
    if s == "" {
      assert "" + [c] == [c] && [c][1..] == "" && [c] + "" == [c];
      assert [[c]] + [] == [[c]] && Fields("") == [""];
      assert Fields([c]) == if IsBreak(c) then ["", ""] else [[c]];
      assert OneMore([""], c) == Fields([c]);
    } else {
      FieldsOfMore(s[1..], c);
      assert (s + [c])[1..] == s[1..] + [c];
      if IsBreak(s[0]) {
        OneMoreBefore("", Fields(s[1..]), c);
      } else {
        OneMoreInFirst([s[0]], Fields(s[1..]), c);
      }
    }
  }

  /** White space at the start of a text gives no piece. */
  lemma {:induction false} PiecesAfterStart(s: string)
    ensures Pieces(Fields(TrimStart(s))) == Pieces(Fields(s))
  {
    if s != "" && IsWhite(s[0]) {
      PiecesAfterStart(s[1..]);
      var rest := Fields(s[1..]);
      assert rest == [rest[0]] + rest[1..];
      if IsBreak(s[0]) {
        assert ([""] + rest)[1..] == rest;
      } else {
        TrimOfWhiteStart(s[0], rest[0]);
        assert ([[s[0]] + rest[0]] + rest[1..])[1..] == rest[1..];
      }
    }
  }

  lemma {:induction false} PiecesAfterEnd(s: string)
    ensures Pieces(Fields(TrimEnd(s))) == Pieces(Fields(s))
  {
    if s != "" && IsWhite(s[|s| - 1]) {
      var front, c := s[..|s| - 1], s[|s| - 1];
      PiecesAfterEnd(front);
      assert s == front + [c];
      OneMoreWhite(front, c);
    }
  }

  lemma OneMoreWhite(s: string, c: char)
    requires IsWhite(c)
    ensures Pieces(Fields(s + [c])) == Pieces(Fields(s))
  {
    FieldsOfMore(s, c);
    var f := Fields(s);
    var n := |f| - 1;
    if IsBreak(c) {
      PiecesOfMore(f, "");
    } else {
      TrimOfWhiteEnd(f[n], c);
      PiecesOfMore(f[..n], f[n]);
      PiecesOfMore(f[..n], f[n] + [c]);
      assert f == f[..n] + [f[n]];
    }
  }

  /** Trimming a text before it is read changes nothing. */
  lemma TextOfTrim(s: string)
    ensures TextOf(Trim(s)) == TextOf(s)
  {
    PiecesAfterStart(s);
    PiecesAfterEnd(TrimStart(s));
  }

  // ------------------------------------------------------------------ in small letters before it is read

  function LowerEach(texts: seq<string>): seq<string> {
    if texts == [] then [] else [Lower(texts[0])] + LowerEach(texts[1..])
  }

  lemma {:induction false} FieldsOfLower(s: string)
    ensures Fields(Lower(s)) == LowerEach(Fields(s))
  {
    if s != "" {
      FieldsOfLower(s[1..]);
      var rest := Fields(s[1..]);
      assert Lower(s)[1..] == Lower(s[1..]) && Lower(s)[0] == LowerChar(s[0]);
      assert IsBreak(LowerChar(s[0])) <==> IsBreak(s[0]);
      if IsBreak(s[0]) {
        assert ([""] + rest)[1..] == rest && Lower("") == "";
      } else {
        assert ([[s[0]] + rest[0]] + rest[1..])[1..] == rest[1..];
        assert Lower([s[0]] + rest[0]) == [LowerChar(s[0])] + Lower(rest[0]);
        assert LowerEach(rest)[1..] == LowerEach(rest[1..]);
      }
    }
  }

  lemma {:induction false} PiecesOfLower(fields: seq<string>)
    ensures Pieces(LowerEach(fields)) == LowerEach(Pieces(fields))
  {
    if fields != [] {
      PiecesOfLower(fields[1..]);
      LowerTrim(fields[0]);
      assert LowerEach(fields)[1..] == LowerEach(fields[1..]);
      assert LowerEach(fields)[0] == Lower(fields[0]);
      if Trim(fields[0]) == "" {
        assert Pieces(fields) == Pieces(fields[1..]);
      } else {
        assert Pieces(fields)[1..] == Pieces(fields[1..]);
      }
    }
  }

  lemma {:induction false} JoinOfLower(parts: seq<string>)
    ensures Join(LowerEach(parts), " ") == Lower(Join(parts, " "))
  {
    if parts != [] {
      JoinOfLower(parts[1..]);
      assert |LowerEach(parts)| == |parts| by { LowerEachIsAsLong(parts); }
      assert LowerEach(parts)[1..] == LowerEach(parts[1..]);
      assert Lower(parts[0] + " " + Join(parts[1..], " ")) == Lower(parts[0]) + " " + Lower(Join(parts[1..], " "));
    }
  }

  lemma {:induction false} LowerEachIsAsLong(parts: seq<string>)
    ensures |LowerEach(parts)| == |parts|
  {
    if parts != [] {
      LowerEachIsAsLong(parts[1..]);
    }
  }

  /** Reading a text and putting it in small letters may be done in either order. */
  lemma TextOfLower(s: string)
    ensures TextOf(Lower(s)) == Lower(TextOf(s))
  {
    FieldsOfLower(s);
    PiecesOfLower(Fields(s));
    JoinOfLower(Pieces(Fields(s)));
    LowerTrim(Join(Pieces(Fields(s)), " "));
  }

  // ------------------------------------------------------------------ blank texts, and texts with a break inside

  lemma {:induction false} PiecesAreTexts(fields: seq<string>)
    requires forall f :: f in fields ==> HasNoBreak(f)
    ensures forall p :: p in Pieces(fields) ==> p != "" && IsText(p)
  {
    if fields != [] {
      PiecesAreTexts(fields[1..]);
      assert HasNoBreak(fields[0]);
      TrimIsTrimmed(fields[0]);
    }
  }

  lemma {:induction false} JoinIsTrimmed(parts: seq<string>)
    requires forall p :: p in parts ==> p != "" && IsText(p)
    ensures IsTrimmed(Join(parts, " ")) && (parts != [] ==> Join(parts, " ") != "")
  {
    if parts != [] {
      assert forall p :: p in parts[1..] ==> p in parts;
      JoinIsTrimmed(parts[1..]);
      assert parts[0] in parts;
    }
  }

  /** The text read is its pieces, a space between each two. */
  lemma TextIsJoined(s: string)
    ensures TextOf(s) == Join(Pieces(Fields(s)), " ") && (TextOf(s) == "" <==> Pieces(Fields(s)) == [])
  {
    FieldsHaveNoBreak(s);
    PiecesAreTexts(Fields(s));
    JoinIsTrimmed(Pieces(Fields(s)));
    TrimOfTrimmed(Join(Pieces(Fields(s)), " "));
  }

  /** What starts with a character that is no white space has a first piece. */
  lemma FirstPiece(s: string)
    requires s != "" && !IsWhite(s[0])
    ensures Pieces(Fields(s)) != [] && TextOf(s) != ""
  {
    var f := Fields(s);
    assert f[0] != "" && f[0][0] == s[0];
    TextIsJoined(s);
    TrimKeepsFirst(f[0]);
  }

  lemma TrimKeepsFirst(s: string)
    requires s != "" && !IsWhite(s[0])
    ensures Trim(s) != ""
  {
    TrimEndKeepsFirst(s);
  }

  lemma {:induction false} TrimEndKeepsFirst(s: string)
    requires s != "" && !IsWhite(s[0])
    ensures TrimEnd(s) != ""
  {
    if IsWhite(s[|s| - 1]) {
      TrimEndKeepsFirst(s[..|s| - 1]);
    }
  }

  /** A text reads as empty exactly when there is nothing but white space in it. */
  lemma BlankIsEmpty(s: string)
    ensures TextOf(s) == "" <==> Trim(s) == ""
  {
    TextOfTrim(s);
    TrimIsTrimmed(s);
    if Trim(s) != "" {
      FirstPiece(Trim(s));
    }
  }

  lemma {:induction false} BreakGivesPieces(s: string)
    requires s != "" && !IsWhite(s[|s| - 1]) && !HasNoBreak(s)
    ensures |Fields(s)| > 1 && Pieces(Fields(s)[1..]) != []
  {
    var rest := Fields(s[1..]);
    if IsBreak(s[0]) {
      assert Fields(s)[1..] == rest;
      LastPiece(s[1..]);
    } else {
      assert exists i :: 1 <= i < |s| && IsBreak(s[i]);
      var i :| 1 <= i < |s| && IsBreak(s[i]);
      assert s[1..][i - 1] == s[i];
      BreakGivesPieces(s[1..]);
      assert Fields(s)[1..] == rest[1..];
    }
  }

  lemma LastPiece(s: string)
    requires s != "" && !IsWhite(s[|s| - 1])
    ensures Pieces(Fields(s)) != []
  {
    BlankHasNoEnd(s);
    BlankIsEmpty(s);
    TextIsJoined(s);
  }

  lemma {:induction false} BlankHasNoEnd(s: string)
    requires s != "" && !IsWhite(s[|s| - 1])
    ensures Trim(s) != ""
  {
    if IsWhite(s[0]) {
      BlankHasNoEnd(s[1..]);
    } else {
      TrimKeepsFirst(s);
    }
  }

  /** A trimmed text with a break inside reads with a space inside. */
  lemma BreakReadsAsSpace(s: string)
    requires IsTrimmed(s) && !HasNoBreak(s)
    ensures ' ' in TextOf(s)
  {
    var f := Fields(s);
    FirstField(s);
    BreakGivesPieces(s);
    var p := Pieces(f);
    assert p == [Trim(f[0])] + Pieces(f[1..]);
    TextIsJoined(s);
    assert p[1..] == Pieces(f[1..]);
    assert Join(p, " ") == p[0] + " " + Join(p[1..], " ");
    assert TextOf(s)[|p[0]|] == ' ';
  }

  lemma FirstField(s: string)
    requires s != "" && !IsWhite(s[0])
    ensures Trim(Fields(s)[0]) != ""
  {
    assert Fields(s)[0] != "" && Fields(s)[0][0] == s[0];
    TrimKeepsFirst(Fields(s)[0]);
  }

  // ------------------------------------------------------------------ several lines

  lemma {:induction false} FieldsAtFirst(a: string, c: char, b: string)
    requires HasNoBreak(a) && IsBreak(c)
    ensures Fields(a + [c] + b) == [a] + Fields(b)
  {
    var s := a + [c] + b;
    if a == "" {
      assert s[1..] == b;
    } else {
      FieldsAtFirst(a[1..], c, b);
      assert s[1..] == a[1..] + [c] + b && a == [a[0]] + a[1..];
    }
  }

  lemma {:induction false} PiecesOfLines(texts: seq<string>, c: char)
    requires texts != [] && IsBreak(c) && forall t :: t in texts ==> t != "" && IsText(t)
    ensures Pieces(Fields(Join(texts, [c]))) == texts
  {
    var first, rest := texts[0], texts[1..];
    assert first in texts;
    TrimOfTrimmed(first);
    if |texts| == 1 {
      FieldsOfLine(first);
      assert [first][1..] == [];
      assert Pieces([first]) == [first];
    } else {
      assert forall t :: t in rest ==> t in texts;
      PiecesOfLines(rest, c);
      FieldsAtFirst(first, c, Join(rest, [c]));
      assert ([first] + Fields(Join(rest, [c])))[1..] == Fields(Join(rest, [c]));
      assert texts == [first] + rest;
    }
  }

  /** Lines typed one under the other, or with tabs between them, are read with a space between them. */
  lemma TextOfLines(texts: seq<string>, c: char)
    requires texts != [] && IsBreak(c) && forall t :: t in texts ==> t != "" && IsText(t)
    ensures TextOf(Join(texts, [c])) == Join(texts, " ")
  {
    PiecesOfLines(texts, c);
    JoinIsTrimmed(texts);
    TrimOfTrimmed(Join(texts, " "));
  }
}
