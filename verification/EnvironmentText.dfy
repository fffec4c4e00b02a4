/**
 The texts typed in the environment settings: one line, names, types and colours. Each is brought to a
 normal form and then judged. What is proved of each is that the normal form is reached, and that a text
 already in it is left alone; the normal form of the settings as a whole is built on these. A line break or
 a tab separates two stretches of a text, each of which is trimmed before they are joined by a space.
 */
module EnvironmentText {
  import opened Strings

  // ------------------------------------------------------------------ one line of text

  predicate IsBreak(c: char) {
    c == '\r' || c == '\n' || c == '\t'
  }

  /** The stretches between line breaks and tabs. */
  function Fields(s: string): (r: seq<string>)
    ensures |r| > 0
  {
    if s == "" then [""]
    else
      var rest := Fields(s[1..]);
      if IsBreak(s[0]) then [""] + rest else [[s[0]] + rest[0]] + rest[1..]
  }

  /** The stretches without white space around them, the empty ones left out. */
  function Pieces(fields: seq<string>): seq<string> {
    if fields == [] then []
    else
      var piece := Trim(fields[0]);
      (if piece == "" then [] else [piece]) + Pieces(fields[1..])
  }

  /** The text on one line; empty for a missing or blank text. */
  function TextOf(s: string): string {
    Trim(Join(Pieces(Fields(s)), " "))
  }

  predicate IsTrimmed(s: string) {
    s != "" ==> !IsWhite(s[0]) && !IsWhite(s[|s| - 1])
  }

  predicate HasNoBreak(s: string) {
    forall i :: 0 <= i < |s| ==> !IsBreak(s[i])
  }

  /** A text that is already on one line, without white space around it. */
  predicate IsText(s: string) {
    IsTrimmed(s) && HasNoBreak(s)
  }

  lemma {:induction false} TrimEndEnds(s: string)
    ensures TrimEnd(s) <= s
    ensures TrimEnd(s) != "" ==> !IsWhite(TrimEnd(s)[|TrimEnd(s)| - 1])
  {
    if s != "" && IsWhite(s[|s| - 1]) {
      TrimEndEnds(s[..|s| - 1]);
    }
  }

  lemma {:induction false} TrimStartStarts(s: string)
    ensures HasNoBreak(s) ==> HasNoBreak(TrimStart(s))
    ensures TrimStart(s) != "" ==> !IsWhite(TrimStart(s)[0])
  {
    if s != "" && IsWhite(s[0]) {
      TrimStartStarts(s[1..]);
    }
  }

  lemma TrimIsTrimmed(s: string)
    ensures IsTrimmed(Trim(s))
    ensures HasNoBreak(s) ==> HasNoBreak(Trim(s))
  {
    TrimStartStarts(s);
    TrimEndEnds(TrimStart(s));
  }

  lemma TrimOfTrimmed(s: string)
    requires IsTrimmed(s)
    ensures Trim(s) == s
  {
  }

  lemma {:induction false} FieldsHaveNoBreak(s: string)
    ensures forall f :: f in Fields(s) ==> HasNoBreak(f)
  {
    if s != "" {
      FieldsHaveNoBreak(s[1..]);
      assert HasNoBreak(Fields(s[1..])[0]);
    }
  }

  lemma {:induction false} PiecesHaveNoBreak(fields: seq<string>)
    requires forall f :: f in fields ==> HasNoBreak(f)
    ensures forall f :: f in Pieces(fields) ==> HasNoBreak(f)
  {
    if fields != [] {
      PiecesHaveNoBreak(fields[1..]);
      assert HasNoBreak(fields[0]);
      TrimIsTrimmed(fields[0]);
    }
  }

  lemma {:induction false} JoinHasNoBreak(parts: seq<string>)
    requires forall f :: f in parts ==> HasNoBreak(f)
    ensures HasNoBreak(Join(parts, " "))
  {
    if parts != [] {
      JoinHasNoBreak(parts[1..]);
      assert HasNoBreak(parts[0]);
    }
  }

  lemma TextIsText(s: string)
    ensures IsText(TextOf(s))
  {
    FieldsHaveNoBreak(s);
    PiecesHaveNoBreak(Fields(s));
    JoinHasNoBreak(Pieces(Fields(s)));
    TrimIsTrimmed(Join(Pieces(Fields(s)), " "));
  }

  lemma {:induction false} FieldsOfLine(s: string)
    requires HasNoBreak(s)
    ensures Fields(s) == [s]
  {
    if s != "" {
      FieldsOfLine(s[1..]);
      assert s == [s[0]] + s[1..];
    }
  }

  /** Cleaning a text twice is cleaning it once. */
  lemma TextOfText(s: string)
    requires IsText(s)
    ensures TextOf(s) == s
  {
    FieldsOfLine(s);
    TrimOfTrimmed(s);
    assert [s][1..] == [];
    assert Pieces([s]) == if s == "" then [] else [s];
  }

  // ------------------------------------------------------------------ names, types, colours

  predicate IsNameStart(c: char) {
    'a' <= c <= 'z' || '0' <= c <= '9'
  }

  predicate IsName(s: string) {
    && 1 <= |s| <= 40
    && IsNameStart(s[0])
    && forall i :: 0 <= i < |s| ==> IsNameStart(s[i]) || s[i] == '.' || s[i] == '_' || s[i] == '-'
  }

  /** The name typed, trimmed and in small letters. */
  function NameOf(s: string): string {
    Lower(Trim(s))
  }

  lemma NameOfName(s: string)
    requires IsName(s)
    ensures NameOf(s) == s && Lower(s) == s && IsText(s)
  {
    TrimOfTrimmed(s);
  }

  predicate IsKind(kind: string) {
    kind == "production" || kind == "recette" || kind == "developpement" || kind == "autre"
  }

  function KindOf(kind: string): string {
    if TextOf(kind) == "" then "autre" else Lower(TextOf(kind))
  }

  lemma KindIsName(kind: string)
    requires IsKind(kind)
    ensures IsName(kind)
  {
  }

  lemma KindOfKind(kind: string)
    requires IsKind(kind)
    ensures KindOf(kind) == kind
  {
    KindIsName(kind);
    NameOfName(kind);
    TextOfText(kind);
  }

  predicate IsHex(c: char) {
    '0' <= c <= '9' || 'a' <= c <= 'f' || 'A' <= c <= 'F'
  }

  predicate AreHex(s: string) {
    forall i :: 0 <= i < |s| ==> IsHex(s[i])
  }

  function WithoutHash(s: string): string {
    if s != "" && s[0] == '#' then WithoutHash(s[1..]) else s
  }

  /** Three or six hexadecimal digits, a hash sign allowed before them. */
  predicate IsColor(s: string) {
    var digits := if s != "" && s[0] == '#' then s[1..] else s;
    (|digits| == 3 || |digits| == 6) && AreHex(digits)
  }

  function Doubled(s: string): string {
    if s == "" then "" else [s[0], s[0]] + Doubled(s[1..])
  }

  function NormalizeColor(s: string): string {
    var hex := Lower(WithoutHash(s));
    "#" + (if |hex| == 3 then Doubled(hex) else hex)
  }

  predicate IsNormalColor(s: string) {
    |s| == 7 && s[0] == '#' && AreHex(s[1..]) && Lower(s) == s
  }

  lemma {:induction false} DoubledIsHex(s: string)
    requires AreHex(s) && Lower(s) == s
    ensures |Doubled(s)| == 2 * |s| && AreHex(Doubled(s)) && Lower(Doubled(s)) == Doubled(s)
  {
    if s != "" {
      assert Lower(s)[0] == s[0];
      assert forall i :: 0 <= i < |s| - 1 ==> Lower(s[1..])[i] == Lower(s)[i + 1];
      assert Lower(s[1..]) == s[1..];
      DoubledIsHex(s[1..]);
    }
  }

  /** The colour as typed, in small letters with a hash sign; each of three digits stands for two. */
  predicate IsColorOf(typed: string, color: string) {
    var digits := Lower(if typed != "" && typed[0] == '#' then typed[1..] else typed);
    if |digits| == 3 then color == ['#', digits[0], digits[0], digits[1], digits[1], digits[2], digits[2]]
    else color == "#" + digits
  }

  lemma ColorIsKept(s: string)
    requires IsColor(s)
    ensures IsColorOf(s, NormalizeColor(s))
  {
    var digits := if s != "" && s[0] == '#' then s[1..] else s;
    assert WithoutHash(s) == digits;
    var hex := Lower(digits);
    if |hex| == 3 {
      assert hex[1..][1..] == [hex[2]] && [hex[2]][1..] == "";
      assert Doubled([hex[2]]) == [hex[2], hex[2]];
      assert Doubled(hex[1..]) == [hex[1], hex[1]] + Doubled(hex[1..][1..]);
    }
  }

  lemma ColorIsNormalized(s: string)
    requires IsColor(s)
    ensures IsNormalColor(NormalizeColor(s))
  {
    var digits := if s != "" && s[0] == '#' then s[1..] else s;
    assert WithoutHash(s) == digits;
    var hex := Lower(digits);
    assert AreHex(hex) && Lower(hex) == hex;
    if |hex| == 3 {
      DoubledIsHex(hex);
    }
  }

  lemma ColorOfNormal(s: string)
    requires IsNormalColor(s)
    ensures IsColor(s) && IsText(s) && NormalizeColor(s) == s
  {
    assert IsHex(s[1..][0]);
    assert WithoutHash(s) == s[1..];
    assert forall i :: 0 <= i < 6 ==> Lower(s[1..])[i] == Lower(s)[i + 1];
    assert forall i :: 1 <= i < 7 ==> s[i] == s[1..][i - 1];
  }
}
