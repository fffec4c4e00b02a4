/** The parser of message templates: one line of reduced Markdown becomes a list of nodes. */
module Template {

  /** Character classes and case of the platform, whatever they are. */
  datatype Platform = Platform(letterOrDigit: char -> bool, white: char -> bool, lower: char -> char)

  datatype Node =
    | Text(value: string)
    | Var(name: string)
    | Bold(children: seq<Node>)
    | Italic(children: seq<Node>)
    | Link(children: seq<Node>, url: seq<Node>)
    | Mention(name: string, id: string)

  // ------------------------------------------------------------------ strings

  /** `count` characters from an offset on. */
  function Sub(s: string, from: nat, count: nat): (r: string)
    requires from + count <= |s|
    ensures |r| == count
    decreases count
  {
    if count == 0 then "" else [s[from]] + Sub(s, from + 1, count - 1)
  }

  lemma {:induction false} SubHolds(s: string, from: nat, count: nat, c: char)
    requires from + count <= |s| && c !in s
    ensures c !in Sub(s, from, count)
    decreases count
  {
    if count > 0 {
      SubHolds(s, from + 1, count - 1, c);
    }
  }

  function TrimStart(p: Platform, s: string): (r: string)
    ensures |r| <= |s| && forall c :: c in r ==> c in s
  {
    if s != "" && p.white(s[0]) then TrimStart(p, s[1..]) else s
  }

  function TrimEnd(p: Platform, s: string): (r: string)
    ensures |r| <= |s| && forall c :: c in r ==> c in s
  {
    if s != "" && p.white(s[|s| - 1]) then TrimEnd(p, s[..|s| - 1]) else s
  }

  function Trim(p: Platform, s: string): (r: string)
    ensures |r| <= |s| && forall c :: c in r ==> c in s
  {
    TrimEnd(p, TrimStart(p, s))
  }

  lemma {:induction false} TrimStartIs(p: Platform, s: string)
    ensures var t := TrimStart(p, s); var a := |s| - |t|;
      s[a..] == t && (forall c :: c in s[..a] ==> p.white(c)) && (t != "" ==> !p.white(t[0]))
  {
    if s != "" && p.white(s[0]) {
      TrimStartIs(p, s[1..]);
      var a := |s| - |TrimStart(p, s)|;
      assert s[..a] == [s[0]] + s[1..][..a - 1] && s[a..] == s[1..][a - 1..];
    }
  }

  lemma {:induction false} TrimEndIs(p: Platform, s: string)
    ensures var t := TrimEnd(p, s);
      s[..|t|] == t && (forall c :: c in s[|t|..] ==> p.white(c)) && (t != "" ==> !p.white(t[|t| - 1]))
  {
    if s != "" && p.white(s[|s| - 1]) {
      TrimEndIs(p, s[..|s| - 1]);
      var t := TrimEnd(p, s);
      assert s[|t|..] == s[..|s| - 1][|t|..] + [s[|s| - 1]] && s[..|t|] == s[..|s| - 1][..|t|];
    }
  }

  predicate IsTrimmed(p: Platform, s: string, t: string, k: nat) {
    && k + |t| <= |s| && s[k..k + |t|] == t
    && (forall c :: c in s[..k] ==> p.white(c)) && (forall c :: c in s[k + |t|..] ==> p.white(c))
    && (t != "" ==> !p.white(t[0]) && !p.white(t[|t| - 1]))
  }

  /** Trimming takes the white space at both ends, and nothing else. */
  lemma TrimIs(p: Platform, s: string)
    ensures exists k: nat :: IsTrimmed(p, s, Trim(p, s), k)
  {
    hide TrimStart, TrimEnd;
    var start, t := TrimStart(p, s), Trim(p, s);
    TrimStartIs(p, s);
    TrimEndIs(p, start);
    var k: nat := |s| - |start|;
    assert s[k..k + |t|] == start[..|t|] && s[k + |t|..] == start[|t|..];
    assert t != "" ==> t[0] == start[0];
    assert IsTrimmed(p, s, t, k);
  }

  function Lower(p: Platform, s: string): string {
    if s == "" then "" else [p.lower(s[0])] + Lower(p, s[1..])
  }

  /** The same character twice, from offset i on. */
  predicate Pair(s: string, i: nat, c: char) {
    i + 1 < |s| && s[i] == c && s[i + 1] == c
  }

  /** The first pair from an offset on, or -1. */
  function FindPair(s: string, from: nat, c: char): (r: int)
    ensures r == -1 || (from <= r && Pair(s, r, c))
    decreases |s| - from
  {
    if from >= |s| then -1 else if Pair(s, from, c) then from else FindPair(s, from + 1, c)
  }

  function Find(s: string, from: nat, c: char): (r: int)
    ensures r == -1 || (from <= r < |s| && s[r] == c)
    decreases |s| - from
  {
    if from >= |s| then -1 else if s[from] == c then from else Find(s, from + 1, c)
  }

  predicate IsName(p: Platform, name: string) {
    name != "" && forall c :: c in name ==> p.letterOrDigit(c) || c == '_' || c == '.'
  }

  // ------------------------------------------------------------------ what stands at an offset

  /** The closing underscore: before the end of the line or before a character that is neither letter nor digit. */
  function ItalicEndOf(p: Platform, s: string, j: nat): (r: int)
    ensures r == -1 || j <= r < |s|
    decreases |s| - j
  {
    if j >= |s| then -1
    else if Pair(s, j, '{') && FindPair(s, j, '}') > 0 then ItalicEndOf(p, s, FindPair(s, j, '}') + 2)
    else if s[j] == '_' && (j + 1 == |s| || !p.letterOrDigit(s[j + 1])) then j
    else ItalicEndOf(p, s, j + 1)
  }

  /** The parenthesis that closes the one before offset j, `depth` others being open. */
  function ParenthesisEnd(s: string, j: nat, depth: nat): (r: int)
    ensures r == -1 || j <= r < |s|
    decreases |s| - j
  {
    if j >= |s| then -1
    else if s[j] == '(' then ParenthesisEnd(s, j + 1, depth + 1)
    else if s[j] == ')' then
      if depth == 0 then j else ParenthesisEnd(s, j + 1, depth - 1)
    else ParenthesisEnd(s, j + 1, depth)
  }

  datatype Brackets = NoBrackets | Brackets(text: string, target: string, next: nat)

  /** [text](target) from its opening bracket on. */
  function BracketsAt(s: string, start: nat): Brackets
    requires start < |s|
  {
    var close := Find(s, start + 1, ']');
    if close < 0 || close + 1 >= |s| || s[close + 1] != '(' then NoBrackets
    else
      var end := ParenthesisEnd(s, close + 2, 0);
      if end < 0 then NoBrackets
      else Brackets(Sub(s, start + 1, close - start - 1), Sub(s, close + 2, end - close - 2), end + 1)
  }

  /** What ParseInline finds at an offset, before parsing the parts of it. */
  datatype Token =
    | Letter(c: char, next: nat)
    | VarToken(name: string, next: nat)
    | BoldToken(inner: string, next: nat)
    | ItalicToken(inner: string, next: nat)
    | MentionToken(name: string, id: string, next: nat)
    | LinkToken(text: string, url: string, next: nat)

  predicate OpensVariable(p: Platform, s: string, i: nat) {
    Pair(s, i, '{') && FindPair(s, i + 2, '}') > 0 && IsName(p, Trim(p, Sub(s, i + 2, FindPair(s, i + 2, '}') - i - 2)))
  }

  predicate OpensItalic(p: Platform, s: string, i: nat)
    requires i < |s|
  {
    s[i] == '_' && (i == 0 || !p.letterOrDigit(s[i - 1])) && ItalicEndOf(p, s, i + 1) > i + 1
  }

  function TokenAt(p: Platform, s: string, i: nat): Token
    requires i < |s|
  {
    if s[i] == '\\' && i + 1 < |s| then Letter(s[i + 1], i + 2)
    else if OpensVariable(p, s, i) then
      var end := FindPair(s, i + 2, '}');
      VarToken(Lower(p, Trim(p, Sub(s, i + 2, end - i - 2))), end + 2)
    else if Pair(s, i, '*') && FindPair(s, i + 2, '*') > i + 2 then
      var end := FindPair(s, i + 2, '*');
      BoldToken(Sub(s, i + 2, end - i - 2), end + 2)
    else if OpensItalic(p, s, i) then
      var end := ItalicEndOf(p, s, i + 1);
      ItalicToken(Sub(s, i + 1, end - i - 1), end + 1)
    else
      var mention := if s[i] == '@' && i + 1 < |s| && s[i + 1] == '[' then BracketsAt(s, i + 1) else NoBrackets;
      if mention.Brackets? && mention.target != "" then
        MentionToken(Trim(p, mention.text), Trim(p, mention.target), mention.next)
      else
        var link := if s[i] == '[' then BracketsAt(s, i) else NoBrackets;
        if link.Brackets? then LinkToken(link.text, Trim(p, link.target), link.next) else Letter(s[i], i + 1)
  }

  /** A token leaves less to read, and its parts are shorter than the text it stands in. */
  lemma TokenIsSmaller(p: Platform, s: string, i: nat)
    requires i < |s|
    ensures var t := TokenAt(p, s, i);
      && i < t.next <= |s|
      && (t.BoldToken? || t.ItalicToken? ==> |t.inner| < |s|)
      && (t.LinkToken? ==> |t.text| < |s| && |t.url| < |s|)
  {
  }

  // ------------------------------------------------------------------ parsing

  function Flushed(nodes: seq<Node>, text: string): seq<Node> {
    if text == "" then nodes else nodes + [Text(text)]
  }

  /** The nodes of a line: those found before offset i, then the pending text, then what the rest holds. */
  function Scan(p: Platform, s: string, i: nat, text: string, nodes: seq<Node>): seq<Node>
    requires i <= |s|
    decreases |s|, |s| - i
  {
    if i == |s| then Flushed(nodes, text)
    else
      TokenIsSmaller(p, s, i);
      match TokenAt(p, s, i)
      case Letter(c, next) => Scan(p, s, next, text + [c], nodes)
      case VarToken(name, next) => Scan(p, s, next, "", Flushed(nodes, text) + [Var(name)])
      case BoldToken(inner, next) => Scan(p, s, next, "", Flushed(nodes, text) + [Bold(Scan(p, inner, 0, "", []))])
      case ItalicToken(inner, next) => Scan(p, s, next, "", Flushed(nodes, text) + [Italic(Scan(p, inner, 0, "", []))])
      case MentionToken(name, id, next) => Scan(p, s, next, "", Flushed(nodes, text) + [Mention(name, id)])
      case LinkToken(words, url, next) =>
        Scan(p, s, next, "", Flushed(nodes, text) + [Link(Scan(p, words, 0, "", []), Scan(p, url, 0, "", []))])
  }

  function Parsed(p: Platform, s: string): seq<Node> {
    Scan(p, s, 0, "", [])
  }

  method ItalicEnd(p: Platform, s: string, from: nat) returns (r: int)
    ensures r == ItalicEndOf(p, s, from)
  {
    var j := from;
    while j < |s|
      invariant ItalicEndOf(p, s, from) == ItalicEndOf(p, s, j)
    {
      if Pair(s, j, '{') {
        var close := FindPair(s, j, '}');
        if close > 0 {
          j := close + 2;
          continue;
        }
      }
      if s[j] == '_' && (j + 1 == |s| || !p.letterOrDigit(s[j + 1])) {
        return j;
      }
      j := j + 1;
    }
    r := -1;
  }

  method TryBrackets(s: string, start: nat) returns (r: Brackets)
    requires start < |s|
    ensures r == BracketsAt(s, start)
  {
    var close := Find(s, start + 1, ']');
    if close < 0 || close + 1 >= |s| || s[close + 1] != '(' {
      return NoBrackets;
    }
    var depth: nat, end := 0, -1;
    var j: nat := close + 2;
    while j < |s| && end < 0
      invariant ParenthesisEnd(s, close + 2, 0) == if end < 0 then ParenthesisEnd(s, j, depth) else end
      decreases |s| - j
    {
      if s[j] == '(' {
        depth := depth + 1;
      } else if s[j] == ')' {
        if depth == 0 {
          end := j;
        } else {
          depth := depth - 1;
        }
      }
      j := j + 1;
    }
    if end < 0 {
      return NoBrackets;
    }
    r := Brackets(Sub(s, start + 1, close - start - 1), Sub(s, close + 2, end - close - 2), end + 1);
  }

  /** The tests of the parsing loop, in their order. */
  method NextToken(p: Platform, s: string, i: nat) returns (t: Token)
    requires i < |s|
    ensures t == TokenAt(p, s, i)
  {
    if s[i] == '\\' && i + 1 < |s| {
      return Letter(s[i + 1], i + 2);
    }
    if Pair(s, i, '{') {
      var end := FindPair(s, i + 2, '}');
      var name := if end > 0 then Trim(p, Sub(s, i + 2, end - i - 2)) else "";
      if IsName(p, name) {
        return VarToken(Lower(p, name), end + 2);
      }
    }
    if Pair(s, i, '*') {
      var end := FindPair(s, i + 2, '*');
      if end > i + 2 {
        return BoldToken(Sub(s, i + 2, end - i - 2), end + 2);
      }
    }
    if s[i] == '_' && (i == 0 || !p.letterOrDigit(s[i - 1])) {
      var end := ItalicEnd(p, s, i + 1);
      if end > i + 1 {
        return ItalicToken(Sub(s, i + 1, end - i - 1), end + 1);
      }
    }
    if s[i] == '@' && i + 1 < |s| && s[i + 1] == '[' {
      var mention := TryBrackets(s, i + 1);
      if mention.Brackets? && mention.target != "" {
        return MentionToken(Trim(p, mention.text), Trim(p, mention.target), mention.next);
      }
    }
    if s[i] == '[' {
      var link := TryBrackets(s, i);
      if link.Brackets? {
        return LinkToken(link.text, Trim(p, link.target), link.next);
      }
    }
    t := Letter(s[i], i + 1);
  }

  method ParseInline(p: Platform, s: string) returns (nodes: seq<Node>)
    ensures nodes == Parsed(p, s)
    decreases |s|
  {
    nodes := [];
    var text: string, i: nat := "", 0;
    while i < |s|
      invariant i <= |s|
      invariant Parsed(p, s) == Scan(p, s, i, text, nodes)
      decreases |s| - i
    {
      var token := NextToken(p, s, i);
      TokenIsSmaller(p, s, i);
      if token.Letter? {
        text := text + [token.c];
      } else {
        nodes := Flushed(nodes, text);
        text := "";
        match token
        case VarToken(name, _) =>
          nodes := nodes + [Var(name)];
        case BoldToken(inner, _) =>
          var children := ParseInline(p, inner);
          nodes := nodes + [Bold(children)];
        case ItalicToken(inner, _) =>
          var children := ParseInline(p, inner);
          nodes := nodes + [Italic(children)];
        case MentionToken(name, id, _) =>
          nodes := nodes + [Mention(name, id)];
        case LinkToken(words, target, _) =>
          var children := ParseInline(p, words);
          var url := ParseInline(p, target);
          nodes := nodes + [Link(children, url)];
      }
      i := token.next;
    }
    nodes := Flushed(nodes, text);
  }

  // ------------------------------------------------------------------ the shape of what is parsed

  /** No empty text and no two texts side by side, at any depth. */
  predicate Tidy(nodes: seq<Node>)
    decreases nodes, 1
  {
    && (forall k :: 0 <= k < |nodes| ==> TidyNode(nodes[k]))
    && forall k :: 0 <= k < |nodes| - 1 ==> !(nodes[k].Text? && nodes[k + 1].Text?)
  }

  predicate TidyNode(n: Node)
    decreases n, 0
  {
    match n
    case Text(value) => value != ""
    case Var(_) => true
    case Bold(children) => Tidy(children)
    case Italic(children) => Tidy(children)
    case Link(children, url) => Tidy(children) && Tidy(url)
    case Mention(_, _) => true
  }

  /** Neither a link nor a mention at any depth. */
  predicate Linkless(nodes: seq<Node>)
    decreases nodes, 1
  {
    forall k :: 0 <= k < |nodes| ==> LinklessNode(nodes[k])
  }

  predicate LinklessNode(n: Node)
    decreases n, 0
  {
    match n
    case Text(_) => true
    case Var(_) => true
    case Bold(children) => Linkless(children)
    case Italic(children) => Linkless(children)
    case Link(_, _) => false
    case Mention(_, _) => false
  }

  /** No link inside the words of a link, at any depth. */
  predicate FlatLinks(nodes: seq<Node>)
    decreases nodes, 1
  {
    forall k :: 0 <= k < |nodes| ==> FlatLinksNode(nodes[k])
  }

  predicate FlatLinksNode(n: Node)
    decreases n, 0
  {
    match n
    case Text(_) => true
    case Var(_) => true
    case Bold(children) => FlatLinks(children)
    case Italic(children) => FlatLinks(children)
    case Link(children, url) => Linkless(children) && FlatLinks(children) && FlatLinks(url)
    case Mention(_, _) => true
  }

  predicate EndsWithText(nodes: seq<Node>) {
    nodes != [] && nodes[|nodes| - 1].Text?
  }

  lemma TidyGrows(nodes: seq<Node>, text: string, n: Node)
    requires Tidy(nodes) && !EndsWithText(nodes) && TidyNode(n) && !n.Text?
    ensures Tidy(Flushed(nodes, text)) && Tidy(Flushed(nodes, text) + [n]) && !EndsWithText(Flushed(nodes, text) + [n])
  {
  }

  /** Parsing leaves no empty text, and no two texts side by side. */
  lemma {:induction false} ScanIsTidy(p: Platform, s: string, i: nat, text: string, nodes: seq<Node>)
    requires i <= |s| && Tidy(nodes) && !EndsWithText(nodes)
    ensures Tidy(Scan(p, s, i, text, nodes))
    decreases |s|, |s| - i
  {
    if i == |s| {
      TidyGrows(nodes, text, Var(""));
    } else {
      TokenIsSmaller(p, s, i);
      match TokenAt(p, s, i)
      case Letter(c, next) => ScanIsTidy(p, s, next, text + [c], nodes);
      case VarToken(name, next) =>
        TidyGrows(nodes, text, Var(name));
        ScanIsTidy(p, s, next, "", Flushed(nodes, text) + [Var(name)]);
      case BoldToken(inner, next) =>
        ScanIsTidy(p, inner, 0, "", []);
        var n := Bold(Parsed(p, inner));
        TidyGrows(nodes, text, n);
        ScanIsTidy(p, s, next, "", Flushed(nodes, text) + [n]);
      case ItalicToken(inner, next) =>
        ScanIsTidy(p, inner, 0, "", []);
        var n := Italic(Parsed(p, inner));
        TidyGrows(nodes, text, n);
        ScanIsTidy(p, s, next, "", Flushed(nodes, text) + [n]);
      case MentionToken(name, id, next) =>
        TidyGrows(nodes, text, Mention(name, id));
        ScanIsTidy(p, s, next, "", Flushed(nodes, text) + [Mention(name, id)]);
      case LinkToken(words, url, next) =>
        ScanIsTidy(p, words, 0, "", []);
        ScanIsTidy(p, url, 0, "", []);
        var n := Link(Parsed(p, words), Parsed(p, url));
        TidyGrows(nodes, text, n);
        ScanIsTidy(p, s, next, "", Flushed(nodes, text) + [n]);
    }
  }

  lemma ParsedIsTidy(p: Platform, s: string)
    ensures Tidy(Parsed(p, s))
  {
    ScanIsTidy(p, s, 0, "", []);
  }

  lemma {:induction false} BeforeFound(s: string, from: nat, c: char)
    requires Find(s, from, c) >= 0
    ensures c !in Sub(s, from, Find(s, from, c) - from)
    decreases |s| - from
  {
    if s[from] != c {
      BeforeFound(s, from + 1, c);
    }
  }

  /** Without a closing bracket there is neither a link nor a mention, and the parts have no bracket either. */
  lemma TokenWithoutBracket(p: Platform, s: string, i: nat)
    requires i < |s| && ']' !in s
    ensures var t := TokenAt(p, s, i);
      && !t.MentionToken? && !t.LinkToken?
      && (t.BoldToken? || t.ItalicToken? ==> ']' !in t.inner)
  {
    var bold, italic := FindPair(s, i + 2, '*'), ItalicEndOf(p, s, i + 1);
    if bold > i + 2 {
      SubHolds(s, i + 2, bold - i - 2, ']');
    }
    if italic > i + 1 {
      SubHolds(s, i + 1, italic - i - 1, ']');
    }
  }

  lemma LinkWordsHaveNoBracket(p: Platform, s: string, i: nat)
    requires i < |s| && TokenAt(p, s, i).LinkToken?
    ensures ']' !in TokenAt(p, s, i).text
  {
    BeforeFound(s, i + 1, ']');
  }

  lemma {:induction false} ScanIsLinkless(p: Platform, s: string, i: nat, text: string, nodes: seq<Node>)
    requires i <= |s| && ']' !in s && Linkless(nodes)
    ensures Linkless(Scan(p, s, i, text, nodes))
    decreases |s|, |s| - i
  {
    if i < |s| {
      TokenIsSmaller(p, s, i);
      TokenWithoutBracket(p, s, i);
      match TokenAt(p, s, i)
      case Letter(c, next) => ScanIsLinkless(p, s, next, text + [c], nodes);
      case VarToken(name, next) => ScanIsLinkless(p, s, next, "", Flushed(nodes, text) + [Var(name)]);
      case BoldToken(inner, next) =>
        ScanIsLinkless(p, inner, 0, "", []);
        ScanIsLinkless(p, s, next, "", Flushed(nodes, text) + [Bold(Parsed(p, inner))]);
      case ItalicToken(inner, next) =>
        ScanIsLinkless(p, inner, 0, "", []);
        ScanIsLinkless(p, s, next, "", Flushed(nodes, text) + [Italic(Parsed(p, inner))]);
    }
  }

  lemma {:induction false} ScanHasFlatLinks(p: Platform, s: string, i: nat, text: string, nodes: seq<Node>)
    requires i <= |s| && FlatLinks(nodes)
    ensures FlatLinks(Scan(p, s, i, text, nodes))
    decreases |s|, |s| - i
  {
    if i < |s| {
      TokenIsSmaller(p, s, i);
      match TokenAt(p, s, i)
      case Letter(c, next) => ScanHasFlatLinks(p, s, next, text + [c], nodes);
      case VarToken(name, next) => ScanHasFlatLinks(p, s, next, "", Flushed(nodes, text) + [Var(name)]);
      case BoldToken(inner, next) =>
        ScanHasFlatLinks(p, inner, 0, "", []);
        ScanHasFlatLinks(p, s, next, "", Flushed(nodes, text) + [Bold(Parsed(p, inner))]);
      case ItalicToken(inner, next) =>
        ScanHasFlatLinks(p, inner, 0, "", []);
        ScanHasFlatLinks(p, s, next, "", Flushed(nodes, text) + [Italic(Parsed(p, inner))]);
      case MentionToken(name, id, next) => ScanHasFlatLinks(p, s, next, "", Flushed(nodes, text) + [Mention(name, id)]);
      case LinkToken(words, url, next) =>
        LinkWordsHaveNoBracket(p, s, i);
        ScanIsLinkless(p, words, 0, "", []);
        ScanHasFlatLinks(p, words, 0, "", []);
        ScanHasFlatLinks(p, url, 0, "", []);
        ScanHasFlatLinks(p, s, next, "", Flushed(nodes, text) + [Link(Parsed(p, words), Parsed(p, url))]);
    }
  }

  /** The words of a link hold no link and no mention, however deep. */
  lemma LinksAreFlat(p: Platform, s: string)
    ensures FlatLinks(Parsed(p, s))
  {
    ScanHasFlatLinks(p, s, 0, "", []);
  }

  // ------------------------------------------------------------------ writing text literally

  /** A text with a backslash before each character. */
  function Escaped(s: string): string {
    if s == "" then "" else ['\\', s[0]] + Escaped(s[1..])
  }

  lemma {:induction false} EscapedIsScanned(p: Platform, s: string, rest: string, text: string)
    requires |rest| <= |s| && s[|s| - |rest|..] == rest && exists r: string :: rest == Escaped(r)
    ensures Scan(p, s, |s| - |rest|, text, []) == Scan(p, s, |s|, text + Letters(rest), [])
    decreases |rest|
  {
    if rest == "" {
      assert text + Letters(rest) == text;
    } else {
      var r: string :| rest == Escaped(r);
      var i := |s| - |rest|;
      assert s[i] == rest[0] && s[i + 1] == rest[1];
      assert s[i + 2..] == rest[2..] == Escaped(r[1..]);
      EscapedIsScanned(p, s, rest[2..], text + [rest[1]]);
      assert text + [rest[1]] + Letters(rest[2..]) == text + Letters(rest);
    }
  }

  /** Every second character. */
  function Letters(s: string): string {
    if |s| < 2 then "" else [s[1]] + Letters(s[2..])
  }

  lemma {:induction false} LettersOfEscaped(s: string)
    ensures Letters(Escaped(s)) == s
  {
    if s != "" {
      LettersOfEscaped(s[1..]);
      assert Escaped(s)[2..] == Escaped(s[1..]);
    }
  }

  /** Any text can be written in a template: escaped, it is read back as itself. */
  lemma EscapedTextIsKept(p: Platform, s: string)
    requires s != ""
    ensures Parsed(p, Escaped(s)) == [Text(s)]
  {
    var t := Escaped(s);
    assert t[0..] == t;
    EscapedIsScanned(p, t, t, "");
    LettersOfEscaped(s);
    assert "" + s == s;
  }
}
