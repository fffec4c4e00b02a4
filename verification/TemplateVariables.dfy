/**
 Which variables a template uses, and whether the test made before computing a costly one sees them. The parser
 works on the lines of the template without its carriage returns, and accepts white space between two braces and
 a name; the test looks for braces and name as one stretch of the template as it was typed. So the test can miss
 a variable; what is proved is where it does not.
 */
module TemplateVariables {
  import opened Template
  import opened TemplateLines
  import S = Strings

  /** The token stands at an offset, case ignored. */
  predicate StandsAt(p: Platform, s: string, i: nat, token: string) {
    i + |token| <= |s| && forall k :: 0 <= k < |token| ==> p.lower(token[k]) == p.lower(s[i + k])
  }

  /** The test made before a costly variable is computed. */
  ghost predicate Uses(p: Platform, s: string, variable: string) {
    exists i: nat :: StandsAt(p, s, i, "{{" + variable)
  }

  /** Case changes neither letters into white space nor what a second change would give. */
  ghost predicate Sound(p: Platform) {
    && (forall c :: p.lower(p.lower(c)) == p.lower(c))
    && (forall c :: p.white(p.lower(c)) == p.white(c))
    && (forall c :: p.letterOrDigit(c) ==> !p.white(c))
    && !p.white('_') && !p.white('.') && !p.white('{') && p.white('\r')
    && p.lower('{') == '{' && p.lower('}') == '}'
  }

  lemma {:induction false} LowerAt(p: Platform, s: string, k: nat)
    requires k < |s|
    ensures |Lower(p, s)| == |s| && Lower(p, s)[k] == p.lower(s[k])
  {
    if |s| > 1 {
      LowerAt(p, s[1..], if k > 0 then k - 1 else 0);
    }
  }

  lemma {:induction false} TrimEndIsPrefix(p: Platform, s: string)
    ensures TrimEnd(p, s) <= s
  {
    if s != "" && p.white(s[|s| - 1]) {
      TrimEndIsPrefix(p, s[..|s| - 1]);
    }
  }

  lemma {:induction false} SubAt(s: string, from: nat, count: nat, k: nat)
    requires from + count <= |s| && k < count
    ensures Sub(s, from, count)[k] == s[from + k]
    decreases count
  {
    if k > 0 {
      SubAt(s, from + 1, count - 1, k - 1);
    }
  }

  lemma SpacedIsNotSeen(p: Platform, s: string, i: nat, trimmed: string)
    requires Sound(p) && i + 2 < |s| && p.white(s[i + 2]) && IsName(p, trimmed)
    ensures !StandsAt(p, s, i, "{{" + Lower(p, trimmed))
  {
    NameIsNotWhite(p, trimmed);
    LowerAt(p, trimmed, 0);
    var token := "{{" + Lower(p, trimmed);
    assert token[2] == p.lower(trimmed[0]);
  }

  lemma TightIsSeen(p: Platform, s: string, i: nat, count: nat)
    requires Sound(p) && Pair(s, i, '{') && 0 < count && i + 2 + count <= |s| && !p.white(s[i + 2])
    ensures StandsAt(p, s, i, "{{" + Lower(p, Trim(p, Sub(s, i + 2, count))))
  {
    var inside := Sub(s, i + 2, count);
    var trimmed := Trim(p, inside);
    SubAt(s, i + 2, count, 0);
    TrimEndIsPrefix(p, inside);
    LowerIsAsLong(p, trimmed);
    var token := "{{" + Lower(p, trimmed);
    forall k | 0 <= k < |token| ensures p.lower(token[k]) == p.lower(s[i + k]) {
      if k >= 2 {
        LowerAt(p, trimmed, k - 2);
        SubAt(s, i + 2, count, k - 2);
      }
    }
  }

  lemma {:induction false} LowerIsAsLong(p: Platform, s: string)
    ensures |Lower(p, s)| == |s|
  {
    if s != "" {
      LowerIsAsLong(p, s[1..]);
    }
  }

  /** A variable is seen where it stands exactly when no white space separates it from its braces. */
  lemma VariableIsSeen(p: Platform, s: string, i: nat)
    requires Sound(p) && i < |s| && TokenAt(p, s, i).VarToken?
    ensures StandsAt(p, s, i, "{{" + TokenAt(p, s, i).name) <==> !p.white(s[i + 2])
  {
    var count := FindPair(s, i + 2, '}') - i - 2;
    if p.white(s[i + 2]) {
      SpacedIsNotSeen(p, s, i, Trim(p, Sub(s, i + 2, count)));
    } else {
      TightIsSeen(p, s, i, count);
    }
  }

  lemma NameIsNotWhite(p: Platform, name: string)
    requires Sound(p) && IsName(p, name)
    ensures !p.white(name[0])
  {
    assert name[0] in name;
  }

  /** The text is a stretch of s. */
  ghost predicate Within(text: string, s: string) {
    exists from: nat :: IsStretch(text, s, from)
  }

  predicate IsStretch(text: string, s: string, from: nat) {
    from + |text| <= |s| && forall k :: 0 <= k < |text| ==> text[k] == s[from + k]
  }

  lemma SubIsStretch(s: string, from: nat, count: nat)
    requires from + count <= |s|
    ensures IsStretch(Sub(s, from, count), s, from)
  {
    forall k | 0 <= k < count ensures Sub(s, from, count)[k] == s[from + k] {
      SubAt(s, from, count, k);
    }
  }

  lemma {:induction false} TrimStartIsWithin(p: Platform, s: string)
    ensures IsStretch(TrimStart(p, s), s, |s| - |TrimStart(p, s)|)
  {
    if s != "" && p.white(s[0]) {
      TrimStartIsWithin(p, s[1..]);
    }
  }

  lemma TrimIsWithin(p: Platform, t: string, s: string, from: nat)
    requires IsStretch(t, s, from)
    ensures Within(Trim(p, t), s)
  {
    TrimStartIsWithin(p, t);
    TrimEndIsPrefix(p, TrimStart(p, t));
    assert IsStretch(Trim(p, t), s, from + |t| - |TrimStart(p, t)|);
  }

  /** The parts of a token are stretches of the line. */
  lemma TokenIsWithin(p: Platform, s: string, i: nat)
    requires i < |s|
    ensures var t := TokenAt(p, s, i);
      && (t.BoldToken? || t.ItalicToken? ==> Within(t.inner, s))
      && (t.LinkToken? ==> Within(t.text, s) && Within(t.url, s))
  {
    match TokenAt(p, s, i)
    case BoldToken(_, _) => SubIsStretch(s, i + 2, FindPair(s, i + 2, '*') - i - 2);
    case ItalicToken(_, _) => SubIsStretch(s, i + 1, ItalicEndOf(p, s, i + 1) - i - 1);
    case LinkToken(_, _, _) =>
      var close := Find(s, i + 1, ']');
      var end := ParenthesisEnd(s, close + 2, 0);
      SubIsStretch(s, i + 1, close - i - 1);
      SubIsStretch(s, close + 2, end - close - 2);
      TrimIsWithin(p, Sub(s, close + 2, end - close - 2), s, close + 2);
    case _ =>
  }

  lemma WithinTwice(a: string, b: string, c: string)
    requires Within(a, b) && Within(b, c)
    ensures Within(a, c)
  {
    var i: nat :| IsStretch(a, b, i);
    var j: nat :| IsStretch(b, c, j);
    forall k | 0 <= k < |a| ensures a[k] == c[i + j + k] {
      assert a[k] == b[i + k];
    }
    assert IsStretch(a, c, i + j);
  }

  // ------------------------------------------------------------------ the template as it was typed

  /** Where, from an offset on, the characters stand that are no carriage returns. */
  function Places(t: string, from: nat): seq<nat>
    requires from <= |t|
    decreases |t| - from
  {
    if from == |t| then [] else (if t[from] == '\r' then [] else [from]) + Places(t, from + 1)
  }

  lemma {:induction false} PlacesAre(t: string, from: nat)
    requires from <= |t|
    ensures var places, s := Places(t, from), WithoutReturns(t[from..]);
      && |places| == |s|
      && (forall k :: 0 <= k < |s| ==> from <= places[k] < |t| && t[places[k]] == s[k])
      && (forall j, k :: 0 <= j < k < |s| ==> places[j] < places[k])
    decreases |t| - from
  {
    if from < |t| {
      PlacesAre(t, from + 1);
      assert t[from..][1..] == t[from + 1..];
    }
  }

  /** No carriage return from one place to another. */
  predicate IsWhole(t: string, from: nat, to: nat) {
    from <= to <= |t| && forall k :: from <= k < to ==> t[k] != '\r'
  }

  /** From the a-th on, n characters stand side by side. */
  predicate IsRow(places: seq<nat>, a: nat, n: nat) {
    a + n <= |places| && forall k :: a <= k < a + n ==> places[k] == places[a] + (k - a)
  }

  /** Without a carriage return between them, characters stand side by side. */
  lemma {:induction false} WholeIsRow(t: string, a: nat, n: nat)
    requires a < |Places(t, 0)| && IsWhole(t, Places(t, 0)[a], Places(t, 0)[a] + n)
    ensures IsRow(Places(t, 0), a, n)
  {
    if n > 1 {
      WholeIsRow(t, a, n - 1);
      assert Places(t, 0)[a + n - 2] == Places(t, 0)[a] + (n - 2);
      NextPlace(t, 0, a + n - 2);
    }
  }

  lemma {:induction false} NextPlace(t: string, from: nat, k: nat)
    requires from <= |t| && k < |Places(t, from)|
    requires Places(t, from)[k] + 1 < |t| && t[Places(t, from)[k] + 1] != '\r'
    ensures k + 1 < |Places(t, from)| && Places(t, from)[k + 1] == Places(t, from)[k] + 1
    decreases |t| - from
  {
    if t[from] == '\r' {
      NextPlace(t, from + 1, k);
    } else if k > 0 {
      NextPlace(t, from + 1, k - 1);
    }
  }

  predicate IsIncreasing(places: seq<nat>) {
    forall j, k :: 0 <= j < k < |places| ==> places[j] < places[k]
  }

  /** Places that are no further apart than their ranks are side by side. */
  lemma {:induction false} Squeezed(places: seq<nat>, a: nat, n: nat)
    requires 0 < n && a + n <= |places| && places[a + n - 1] <= places[a] + n - 1 && IsIncreasing(places)
    ensures IsRow(places, a, n)
  {
    if n > 1 {
      assert places[a + n - 2] < places[a + n - 1];
      Squeezed(places, a, n - 1);
      NotTooNear(places, a, n);
    }
  }

  lemma {:induction false} NotTooNear(places: seq<nat>, a: nat, n: nat)
    requires 0 < n && a + n <= |places| && IsIncreasing(places)
    ensures places[a + n - 1] >= places[a] + n - 1
  {
    if n > 1 {
      NotTooNear(places, a, n - 1);
      assert places[a + n - 2] < places[a + n - 1];
    }
  }

  /** Each character of a stretch of the text is the one that stands at its place in the template. */
  lemma PlaceHolds(t: string, line: string, from: nat, i: nat)
    requires IsStretch(line, WithoutReturns(t), from) && i < |line|
    ensures from + i < |Places(t, 0)| && Places(t, 0)[from + i] < |t| && t[Places(t, 0)[from + i]] == line[i]
  {
    assert t[0..] == t;
    PlacesAre(t, 0);
  }

  lemma PlacesIncrease(t: string)
    ensures IsIncreasing(Places(t, 0)) && |Places(t, 0)| == |WithoutReturns(t)|
  {
    assert t[0..] == t;
    PlacesAre(t, 0);
  }

  /** A token that stands in a stretch of the text stands in the template, where it is in one piece. */
  lemma StandsInTemplate(p: Platform, t: string, line: string, from: nat, i: nat, token: string)
    requires IsStretch(line, WithoutReturns(t), from) && i + |token| <= |line| && token != ""
    requires IsRow(Places(t, 0), from + i, |token|)
    ensures StandsAt(p, t, Places(t, 0)[from + i], token) <==> StandsAt(p, line, i, token)
  {
    var start := Places(t, 0)[from + i];
    PlaceHolds(t, line, from, i + |token| - 1);
    assert Places(t, 0)[from + i + |token| - 1] == start + |token| - 1;
    forall k | 0 <= k < |token|
      ensures p.lower(token[k]) == p.lower(t[start + k]) <==> p.lower(token[k]) == p.lower(line[i + k])
    {
      PlaceHolds(t, line, from, i + k);
      assert Places(t, 0)[from + i + k] == start + k;
    }
  }

  /** A token without white space that stands in the template is in one piece. */
  lemma TokenIsRow(p: Platform, t: string, a: nat, token: string)
    requires Sound(p) && a < |Places(t, 0)| && (forall c :: c in token ==> !p.white(c))
    requires StandsAt(p, t, Places(t, 0)[a], token)
    ensures IsRow(Places(t, 0), a, |token|)
  {
    var start := Places(t, 0)[a];
    forall k | start <= k < start + |token| ensures t[k] != '\r' {
      var c := token[k - start];
      assert !p.white(c) && p.lower(c) == p.lower(t[start + (k - start)]);
      assert p.white(p.lower(c)) == p.white(c) && p.white(p.lower(t[k])) == p.white(t[k]);
    }
    WholeIsRow(t, a, |token|);
  }

  lemma NameIsNoWhite(p: Platform, name: string, c: char)
    requires Sound(p) && IsName(p, name) && c in "{{" + Lower(p, name)
    ensures !p.white(c)
  {
    var token := "{{" + Lower(p, name);
    var k :| 0 <= k < |token| && token[k] == c;
    if k >= 2 {
      LowerIsAsLong(p, name);
      LowerAt(p, name, k - 2);
      assert name[k - 2] in name;
    }
  }

  /** Braces and name of a variable hold no white space, and end before the closing braces. */
  lemma VariableIsCompact(p: Platform, s: string, i: nat)
    requires Sound(p) && i < |s| && TokenAt(p, s, i).VarToken?
    ensures forall c :: c in "{{" + TokenAt(p, s, i).name ==> !p.white(c)
    ensures i + 2 + |TokenAt(p, s, i).name| <= FindPair(s, i + 2, '}') < |s|
  {
    var name := Trim(p, Sub(s, i + 2, FindPair(s, i + 2, '}') - i - 2));
    LowerIsAsLong(p, name);
    forall c | c in "{{" + Lower(p, name) ensures !p.white(c) {
      NameIsNoWhite(p, name, c);
    }
  }

  /** The place in the template of a variable at offset i of a line that begins at an offset of its text. */
  function PlaceOf(t: string, from: nat, i: nat): nat {
    if from + i < |Places(t, 0)| then Places(t, 0)[from + i] else 0
  }

  /** A token without white space stands in the template exactly when it stands in the line and is in one piece. */
  lemma TokenStandsExactlyWhen(p: Platform, t: string, line: string, from: nat, i: nat, token: string)
    requires Sound(p) && IsStretch(line, WithoutReturns(t), from) && i + |token| <= |line|
    requires token != "" && forall c :: c in token ==> !p.white(c)
    ensures StandsAt(p, t, PlaceOf(t, from, i), token) <==>
      StandsAt(p, line, i, token) && PlaceOf(t, from, i + |token| - 1) == PlaceOf(t, from, i) + |token| - 1
  {
    PlacesIncrease(t);
    if StandsAt(p, t, PlaceOf(t, from, i), token) {
      TokenIsRow(p, t, from + i, token);
      StandsInTemplate(p, t, line, from, i, token);
    } else if PlaceOf(t, from, i + |token| - 1) == PlaceOf(t, from, i) + |token| - 1 {
      Squeezed(Places(t, 0), from + i, |token|);
      StandsInTemplate(p, t, line, from, i, token);
    }
  }

  /**
   The test sees a variable where it stands exactly when no white space follows its braces and no carriage return
   was typed between the first of them and the last letter of its name.
   */
  lemma VariableIsSeenExactlyWhen(p: Platform, t: string, line: string, from: nat, i: nat)
    requires Sound(p) && IsStretch(line, WithoutReturns(t), from) && i < |line| && TokenAt(p, line, i).VarToken?
    ensures var token := "{{" + TokenAt(p, line, i).name;
      StandsAt(p, t, PlaceOf(t, from, i), token) <==>
        !p.white(line[i + 2]) && PlaceOf(t, from, i + |token| - 1) == PlaceOf(t, from, i) + |token| - 1
  {
    VariableIsCompact(p, line, i);
    VariableIsSeen(p, line, i);
    TokenStandsExactlyWhen(p, t, line, from, i, "{{" + TokenAt(p, line, i).name);
  }

  // ------------------------------------------------------------------ templates whose variables are all seen

  /**
   Wherever two opening braces stand, carriage returns aside, no white space follows and no carriage return was
   typed before the closing braces.
   */
  predicate IsClear(p: Platform, t: string) {
    var s := WithoutReturns(t);
    forall k :: 0 <= k < |s| - 2 && Pair(s, k, '{')
      ==> !p.white(s[k + 2]) && IsTypedWhole(t, k, FindPair(s, k + 2, '}'))
  }

  predicate IsTypedWhole(t: string, k: nat, end: int) {
    end >= k ==> PlaceOf(t, 0, end) == PlaceOf(t, 0, k) + end - k
  }

  lemma {:induction false} FindPairIsFirst(s: string, from: nat, c: char, k: nat)
    requires from <= k && Pair(s, k, c)
    ensures from <= FindPair(s, from, c) <= k
    decreases |s| - from
  {
    if !Pair(s, from, c) {
      FindPairIsFirst(s, from + 1, c, k);
    }
  }

  /** The closing braces of a stretch are those of the text. */
  lemma ClosingIsThere(line: string, s: string, from: nat, i: nat)
    requires IsStretch(line, s, from) && i + 2 <= |line| && FindPair(line, i + 2, '}') >= 0
    ensures FindPair(s, from + i + 2, '}') == from + FindPair(line, i + 2, '}')
  {
    var end := FindPair(line, i + 2, '}');
    assert Pair(s, from + end, '}');
    FindPairIsFirst(s, from + i + 2, '}', from + end);
    var first := FindPair(s, from + i + 2, '}');
    assert Pair(line, first - from, '}');
    FindPairIsFirst(line, i + 2, '}', first - from);
  }

  /** In a clear template, a variable of a stretch of its text is seen. */
  lemma ClearIsSeen(p: Platform, t: string, line: string, i: nat)
    requires Sound(p) && IsClear(p, t) && Within(line, WithoutReturns(t)) && i < |line| && TokenAt(p, line, i).VarToken?
    ensures Uses(p, t, TokenAt(p, line, i).name)
  {
    var s := WithoutReturns(t);
    var from: nat :| IsStretch(line, s, from);
    var a, end := from + i, FindPair(line, i + 2, '}');
    assert Pair(s, a, '{');
    ClosingIsThere(line, s, from, i);
    PlacesIncrease(t);
    Squeezed(Places(t, 0), a, end - i + 1);
    VariableIsCompact(p, line, i);
    VariableIsSeenExactlyWhen(p, t, line, from, i);
  }

  ghost predicate AllSeen(p: Platform, t: string, names: seq<string>) {
    forall v :: v in names ==> Uses(p, t, v)
  }

  lemma BothAreSeen(p: Platform, t: string, a: seq<string>, b: seq<string>)
    requires AllSeen(p, t, a) && AllSeen(p, t, b)
    ensures AllSeen(p, t, a + b)
  {
  }

  lemma {:induction false} NamesOfMore(a: seq<Node>, b: seq<Node>)
    ensures Names(a + b) == Names(a) + Names(b)
  {
    if a == [] {
      assert a + b == b;
    } else {
      NamesOfMore(a[1..], b);
      assert (a + b)[1..] == a[1..] + b && (a + b)[0] == a[0];
      assert Names(a + b) == NamesOf(a[0]) + Names(a[1..] + b);
    }
  }

  lemma NamesOfOne(n: Node)
    ensures Names([n]) == NamesOf(n)
  {
    assert [n][1..] == [];
  }

  lemma NodeIsSeen(p: Platform, t: string, text: string, nodes: seq<Node>, n: Node)
    requires AllSeen(p, t, Names(nodes)) && AllSeen(p, t, NamesOf(n))
    ensures AllSeen(p, t, Names(Flushed(nodes, text) + [n])) && AllSeen(p, t, Names(Flushed(nodes, text)))
  {
    NamesOfMore(nodes, [Text(text)]);
    NamesOfMore(Flushed(nodes, text), [n]);
    NamesOfOne(Text(text));
    NamesOfOne(n);
  }

  function NodeOf(p: Platform, t: Token): Node
    requires !t.Letter?
  {
    match t
    case VarToken(name, _) => Var(name)
    case BoldToken(inner, _) => Bold(Parsed(p, inner))
    case ItalicToken(inner, _) => Italic(Parsed(p, inner))
    case MentionToken(name, id, _) => Mention(name, id)
    case LinkToken(words, url, _) => Link(Parsed(p, words), Parsed(p, url))
  }

  /** Parsing a stretch of the text of a clear template finds variables that the test sees. */
  lemma {:induction false} ScanIsSeen(p: Platform, t: string, s: string, i: nat, text: string, nodes: seq<Node>)
    requires i <= |s| && Sound(p) && IsClear(p, t) && Within(s, WithoutReturns(t)) && AllSeen(p, t, Names(nodes))
    ensures AllSeen(p, t, Names(Scan(p, s, i, text, nodes)))
    decreases |s|, |s| - i, 1
  {
    if i == |s| {
      NodeIsSeen(p, t, text, nodes, Text(""));
    } else {
      TokenIsSmaller(p, s, i);
      var token := TokenAt(p, s, i);
      if token.Letter? {
        ScanIsSeen(p, t, s, token.next, text + [token.c], nodes);
      } else {
        TokenIsSeen(p, t, s, i);
        NodeIsSeen(p, t, text, nodes, NodeOf(p, token));
        ScanIsSeen(p, t, s, token.next, "", Flushed(nodes, text) + [NodeOf(p, token)]);
      }
    }
  }

  /** The names of the variables of a token that is no letter. */
  function TokenNames(p: Platform, t: Token): seq<string> {
    match t
    case VarToken(name, _) => [name]
    case BoldToken(inner, _) => Names(Parsed(p, inner))
    case ItalicToken(inner, _) => Names(Parsed(p, inner))
    case LinkToken(words, url, _) => Names(Parsed(p, words)) + Names(Parsed(p, url))
    case _ => []
  }

  lemma NodeHasTokenNames(p: Platform, t: Token)
    requires !t.Letter?
    ensures NamesOf(NodeOf(p, t)) == TokenNames(p, t)
  {
  }

  lemma {:induction false} TokenIsSeen(p: Platform, t: string, s: string, i: nat)
    requires i < |s| && !TokenAt(p, s, i).Letter? && Sound(p) && IsClear(p, t) && Within(s, WithoutReturns(t))
    ensures AllSeen(p, t, NamesOf(NodeOf(p, TokenAt(p, s, i))))
    decreases |s|, |s| - i, 0
  {
    TokenIsSmaller(p, s, i);
    TokenIsWithin(p, s, i);
    var token := TokenAt(p, s, i);
    NodeHasTokenNames(p, token);
    var names := TokenNames(p, token);
    match token
    case VarToken(name, _) =>
      ClearIsSeen(p, t, s, i);
      assert names == [name];
    case BoldToken(inner, _) => PartIsSeen(p, t, inner, s);
    case ItalicToken(inner, _) => PartIsSeen(p, t, inner, s);
    case MentionToken(_, _, _) =>
    case LinkToken(words, url, _) =>
      PartIsSeen(p, t, words, s);
      PartIsSeen(p, t, url, s);
      BothAreSeen(p, t, Names(Parsed(p, words)), Names(Parsed(p, url)));
  }

  lemma {:induction false} PartIsSeen(p: Platform, t: string, part: string, s: string)
    requires Within(part, s) && |part| < |s| && Sound(p) && IsClear(p, t) && Within(s, WithoutReturns(t))
    ensures AllSeen(p, t, Names(Parsed(p, part)))
    decreases |part|, |part| + 1
  {
    WithinTwice(part, s, WithoutReturns(t));
    ScanIsSeen(p, t, part, 0, "", []);
  }

  /** The lines of a text are stretches of it. */
  lemma {:induction false} LineIsWithin(s: string, sep: char, k: nat)
    requires k < |S.Split(s, sep)|
    ensures Within(S.Split(s, sep)[k], s)
    ensures k == 0 ==> IsStretch(S.Split(s, sep)[0], s, 0)
  {
    if s == "" {
      assert IsStretch("", s, 0);
    } else {
      var rest := S.Split(s[1..], sep);
      if s[0] == sep && k == 0 {
        assert IsStretch("", s, 0);
      } else if s[0] != sep && k == 0 {
        LineIsWithin(s[1..], sep, 0);
        assert forall j :: 1 <= j < |rest[0]| + 1 ==> ([s[0]] + rest[0])[j] == rest[0][j - 1] == s[1..][j - 1] == s[j];
        assert IsStretch([s[0]] + rest[0], s, 0);
      } else {
        LineIsWithin(s[1..], sep, if s[0] == sep then k - 1 else k);
        var line := S.Split(s, sep)[k];
        var from: nat :| IsStretch(line, s[1..], from);
        assert IsStretch(line, s, from + 1);
      }
    }
  }

  lemma LineIsSeen(p: Platform, t: string, raw: string)
    requires Sound(p) && IsClear(p, t) && Within(raw, WithoutReturns(t))
    ensures AllSeen(p, t, Names(LineOf(p, raw).nodes))
  {
    var body := if IsItem(raw) then raw[2..] else raw;
    assert IsStretch(body, raw, |raw| - |body|);
    WithinTwice(body, raw, WithoutReturns(t));
    ScanIsSeen(p, t, body, 0, "", []);
  }

  lemma {:induction false} LinesAre(p: Platform, raws: seq<string>, k: nat)
    requires k < |LinesOf(p, raws)|
    ensures |LinesOf(p, raws)| == |raws| && LinesOf(p, raws)[k] == LineOf(p, raws[k])
  {
    LinesAreAsMany(p, raws);
    if k < |raws| - 1 {
      LinesAreAsMany(p, raws[..|raws| - 1]);
      LinesAre(p, raws[..|raws| - 1], k);
    }
  }

  lemma {:induction false} LinesAreAsMany(p: Platform, raws: seq<string>)
    ensures |LinesOf(p, raws)| == |raws|
  {
    if raws != [] {
      LinesAreAsMany(p, raws[..|raws| - 1]);
    }
  }

  /** A clear template uses no variable, on any of its lines, that the test misses. */
  lemma TemplateVariablesAreSeen(p: Platform, t: string, k: nat)
    requires Sound(p) && IsClear(p, t) && k < |LinesOf(p, S.Split(WithoutReturns(t), '\n'))|
    ensures AllSeen(p, t, Names(LinesOf(p, S.Split(WithoutReturns(t), '\n'))[k].nodes))
  {
    var raws := S.Split(WithoutReturns(t), '\n');
    LinesAre(p, raws, k);
    LineIsWithin(WithoutReturns(t), '\n', k);
    LineIsSeen(p, t, raws[k]);
  }

  // ------------------------------------------------------------------ variables that are missed

  /** With a space, the variable is used and the test does not see it. */
  lemma SpacedVariableIsMissed(p: Platform)
    requires Sound(p) && p.white(' ') && p.lower('a') == 'a' && p.letterOrDigit('a')
    ensures Parsed(p, "{{ a}}") == [Var("a")] && !Uses(p, "{{ a}}", "a")
  {
    var s := "{{ a}}";
    assert Sub(s, 2, 2) == " a";
    assert TrimStart(p, " a") == TrimStart(p, "a") == "a";
    assert IsName(p, "a");
    assert Lower(p, "a") == "a";
    assert FindPair(s, 2, '}') == 4 by {
      assert !Pair(s, 2, '}') && !Pair(s, 3, '}');
      assert FindPair(s, 3, '}') == 4;
    }
    assert TokenAt(p, s, 0) == VarToken("a", 6);
    assert Parsed(p, s) == Scan(p, s, 6, "", [Var("a")]);
    SpacedIsNotFound(p);
  }

  lemma SpacedIsNotFound(p: Platform)
    requires Sound(p) && p.white(' ') && p.lower('a') == 'a' && p.letterOrDigit('a')
    ensures !Uses(p, "{{ a}}", "a")
  {
    var s, token := "{{ a}}", "{{a";
    assert "{{" + "a" == token;
    assert p.white(p.lower(' ')) && !p.white(p.lower('a')) && !p.white(p.lower('{'));
    forall i: nat ensures !StandsAt(p, s, i, token) {
      if i <= 2 {
        assert s[i + (2 - i)] == ' ' && p.lower(token[2 - i]) != p.lower(' ');
      } else if i == 3 {
        assert s[i + 1] == '}' && p.lower(token[1]) != p.lower('}');
      }
    }
  }

  /** With a carriage return in its name, the variable is used and the test does not see it. */
  lemma BrokenVariableIsMissed(p: Platform)
    requires Sound(p) && p.lower('a') == 'a' && p.lower('b') == 'b' && p.letterOrDigit('a') && p.letterOrDigit('b')
    ensures WithoutReturns("{{a\rb}}") == "{{ab}}" && Parsed(p, "{{ab}}") == [Var("ab")] && !Uses(p, "{{a\rb}}", "ab")
  {
    ReturnIsDropped();
    AbIsParsed(p);
    var t, token := "{{a\rb}}", "{{ab";
    assert "{{" + "ab" == token;
    assert p.white(p.lower('\r')) && !p.white(p.lower('a')) && !p.white(p.lower('b')) && !p.white(p.lower('{'));
    forall i: nat ensures !StandsAt(p, t, i, token) {
      if i <= 3 {
        assert t[i + (3 - i)] == '\r' && p.lower(token[3 - i]) != p.lower('\r');
      }
    }
  }

  lemma ReturnIsDropped()
    ensures WithoutReturns("{{a\rb}}") == "{{ab}}"
  {
    assert WithoutReturns("}}") == "}}" by {
      assert "}}"[1..] == "}" && "}"[1..] == "";
    }
    assert "\rb}}"[1..] == "b}}" && "b}}"[1..] == "}}";
    assert WithoutReturns("\rb}}") == "b}}";
    assert "{{a\rb}}"[1..] == "{a\rb}}" && "{a\rb}}"[1..] == "a\rb}}" && "a\rb}}"[1..] == "\rb}}";
    assert WithoutReturns("a\rb}}") == "ab}}";
  }

  lemma AbIsParsed(p: Platform)
    requires p.lower('a') == 'a' && p.lower('b') == 'b' && p.letterOrDigit('a') && p.letterOrDigit('b') && Sound(p)
    ensures Parsed(p, "{{ab}}") == [Var("ab")]
  {
    var s := "{{ab}}";
    assert Sub(s, 2, 2) == "ab" by {
      assert Sub(s, 3, 1) == "b";
    }
    assert Trim(p, "ab") == "ab";
    assert IsName(p, "ab");
    assert Lower(p, "ab") == "ab" by {
      assert "ab"[1..] == "b" && Lower(p, "b") == "b";
    }
    assert FindPair(s, 2, '}') == 4 by {
      assert !Pair(s, 2, '}') && !Pair(s, 3, '}');
      assert FindPair(s, 3, '}') == 4;
    }
    assert TokenAt(p, s, 0) == VarToken("ab", 6);
    assert Parsed(p, s) == Scan(p, s, 6, "", [Var("ab")]);
  }
}
