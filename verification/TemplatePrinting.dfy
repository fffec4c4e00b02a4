/** Writing nodes as a template and parsing it again. */
module TemplatePrinting {
  import opened Template
  import opened TemplateLines
  import S = Strings

  // ------------------------------------------------------------------ writing

  /** The characters that can begin something else than text; written after a backslash they are text. */
  predicate IsSpecial(c: char) {
    c in "\\{*_@["
  }

  function PrintedText(s: string): string {
    if s == "" then "" else (if IsSpecial(s[0]) then ['\\', s[0]] else [s[0]]) + PrintedText(s[1..])
  }

  function Printed(nodes: seq<Node>): string
    decreases nodes, 1
  {
    if nodes == [] then "" else PrintedNode(nodes[0]) + Printed(nodes[1..])
  }

  function PrintedNode(n: Node): string
    decreases n, 0
  {
    match n
    case Text(value) => PrintedText(value)
    case Var(name) => "{{" + name + "}}"
    case Bold(children) => "**" + Printed(children) + "**"
    case Italic(children) => "_" + Printed(children) + "_"
    case Link(children, url) => "[" + Printed(children) + "](" + Printed(url) + ")"
    case Mention(name, id) => "@[" + name + "](" + id + ")"
  }

  /** Signs are neither letters nor digits, and no white space stands in a name. */
  ghost predicate IsPlatform(p: Platform) {
    && (forall c :: c in "\\{}*_@[)" ==> !p.letterOrDigit(c))
    && (forall c :: p.letterOrDigit(c) || c == '_' || c == '.' ==> !p.white(c))
  }

  /** Every pair of opening braces is closed. */
  predicate IsClosed(s: string) {
    forall j :: 0 <= j < |s| && Pair(s, j, '{') ==> FindPair(s, j, '}') > 0
  }

  /**
   What can be written: texts are not empty and no two stand side by side; italic parts touch no letter and no
   digit; a part holds no sign that would end it, and what is trimmed has no white space around it.
   */
  predicate Writable(p: Platform, nodes: seq<Node>)
    decreases nodes, 1
  {
    && (forall k :: 0 <= k < |nodes| ==> WritableNode(p, nodes[k]))
    && forall k :: 0 <= k < |nodes| - 1 ==> Adjacent(p, nodes[k], nodes[k + 1])
  }

  predicate WritableNode(p: Platform, n: Node)
    decreases n, 0
  {
    match n
    case Text(value) => value != ""
    case Var(name) => IsName(p, name) && Lower(p, name) == name
    case Bold(children) => children != [] && Writable(p, children) && '*' !in Printed(children)
    case Italic(children) =>
      children != [] && Writable(p, children) && '_' !in Printed(children) && IsClosed(Printed(children))
    case Link(children, url) =>
      && Writable(p, children) && ']' !in Printed(children)
      && Writable(p, url) && HoldsNoParenthesis(Printed(url)) && Trim(p, Printed(url)) == Printed(url)
    case Mention(name, id) =>
      ']' !in name && Trim(p, name) == name && HoldsNoParenthesis(id) && Trim(p, id) == id != ""
  }

  predicate HoldsNoParenthesis(s: string) {
    '(' !in s && ')' !in s
  }

  predicate Adjacent(p: Platform, a: Node, b: Node) {
    && !(a.Text? && b.Text?)
    && (a.Text? && a.value != "" && b.Italic? ==> !p.letterOrDigit(a.value[|a.value| - 1]))
    && (a.Italic? && b.Text? && b.value != "" ==> !p.letterOrDigit(b.value[0]))
  }

  // ------------------------------------------------------------------ what stands between two others

  lemma {:induction false} SubIs(a: string, x: string, b: string)
    ensures Sub(a + x + b, |a|, |x|) == x
    decreases |x|
  {
    if x != "" {
      SubIs(a + [x[0]], x[1..], b);
      assert a + [x[0]] + x[1..] + b == a + x + b;
    }
  }

  /** The first pair after a stretch without the sign. */
  lemma {:induction false} FindPairIs(a: string, x: string, c: char, b: string)
    requires c !in x
    ensures FindPair(a + x + [c, c] + b, |a|, c) == |a| + |x|
    decreases |x|
  {
    var s := a + x + [c, c] + b;
    if x != "" {
      assert s[|a|] == x[0] && x[0] in x;
      FindPairIs(a + [x[0]], x[1..], c, b);
      assert a + [x[0]] + x[1..] + [c, c] + b == s;
    }
  }

  lemma {:induction false} FindIs(a: string, x: string, c: char, b: string)
    requires c !in x
    ensures Find(a + x + [c] + b, |a|, c) == |a| + |x|
    decreases |x|
  {
    var s := a + x + [c] + b;
    if x != "" {
      assert s[|a|] == x[0] && x[0] in x;
      FindIs(a + [x[0]], x[1..], c, b);
      assert a + [x[0]] + x[1..] + [c] + b == s;
    }
  }

  lemma {:induction false} ParenthesisEndIs(a: string, x: string, b: string)
    requires HoldsNoParenthesis(x)
    ensures ParenthesisEnd(a + x + ")" + b, |a|, 0) == |a| + |x|
    decreases |x|
  {
    var s := a + x + ")" + b;
    if x != "" {
      assert s[|a|] == x[0] && x[0] in x;
      ParenthesisEndIs(a + [x[0]], x[1..], b);
      assert a + [x[0]] + x[1..] + ")" + b == s;
    }
  }

  /** A pair that is in a part of a text is in the text. */
  lemma {:induction false} FindPairInPart(a: string, x: string, b: string, from: nat, c: char)
    requires FindPair(x, from, c) >= 0
    ensures FindPair(a + x + b, |a| + from, c) == |a| + FindPair(x, from, c)
    decreases |x| - from
  {
    var s := a + x + b;
    assert from + 1 < |x|;
    assert s[|a| + from] == x[from] && s[|a| + from + 1] == x[from + 1];
    if !Pair(x, from, c) {
      FindPairInPart(a, x, b, from + 1, c);
    }
  }

  lemma {:induction false} ItalicEndIs(p: Platform, a: string, x: string, b: string, j: nat)
    requires j <= |x| && '_' !in x && IsClosed(x) && (b == "" || !p.letterOrDigit(b[0]))
    ensures ItalicEndOf(p, a + x + "_" + b, |a| + j) == |a| + |x|
    decreases |x| - j
  {
    var s := a + x + "_" + b;
    assert s == a + x + ("_" + b);
    if j < |x| {
      assert s[|a| + j] == x[j] && x[j] in x;
      assert s[|a| + j + 1] == if j + 1 < |x| then x[j + 1] else '_';
      if Pair(x, j, '{') {
        FindPairInPart(a, x, "_" + b, j, '}');
        ItalicEndIs(p, a, x, b, FindPair(x, j, '}') + 2);
      } else {
        ItalicEndIs(p, a, x, b, j + 1);
      }
    } else {
      assert s[|a| + j] == '_';
      assert b != "" ==> s[|a| + j + 1] == b[0];
    }
  }

  lemma TrimOfName(p: Platform, name: string)
    requires IsPlatform(p) && IsName(p, name)
    ensures Trim(p, name) == name && '}' !in name
  {
    assert name[0] in name && name[|name| - 1] in name;
  }

  lemma BracketsAre(a: string, x: string, y: string, b: string)
    requires ']' !in x && HoldsNoParenthesis(y)
    ensures BracketsAt(a + "[" + x + "](" + y + ")" + b, |a|) == Brackets(x, y, |a| + |x| + |y| + 4)
  {
    var s := a + "[" + x + "](" + y + ")" + b;
    var open, inside := a + "[", a + "[" + x + "](";
    assert s == open + x + [']'] + ("(" + y + ")" + b);
    FindIs(open, x, ']', "(" + y + ")" + b);
    SubIs(open, x, "](" + y + ")" + b);
    assert s == open + x + ("](" + y + ")" + b);
    ParenthesisEndIs(inside, y, b);
    SubIs(inside, y, ")" + b);
    assert s == inside + y + (")" + b);
    assert s[|a| + 1 + |x| + 1] == '(';
  }

  // ------------------------------------------------------------------ what each part is read as

  lemma VariableStands(a: string, name: string, b: string)
    requires '}' !in name
    ensures var s := a + ("{{" + name + "}}") + b;
      && Pair(s, |a|, '{') && FindPair(s, |a| + 2, '}') == |a| + 2 + |name|
      && |a| + 2 + |name| < |s| && Sub(s, |a| + 2, |name|) == name
  {
    var s, open := a + ("{{" + name + "}}") + b, a + "{{";
    assert s == open + name + ['}', '}'] + b;
    FindPairIs(open, name, '}', b);
    SubIs(open, name, "}}" + b);
    assert s == open + name + ("}}" + b);
    assert s[|a|] == '{' && s[|a| + 1] == '{';
  }

  lemma VariableIsRead(p: Platform, a: string, name: string, b: string)
    requires IsPlatform(p) && IsName(p, name) && Lower(p, name) == name
    ensures TokenAt(p, a + ("{{" + name + "}}") + b, |a|) == VarToken(name, |a| + |name| + 4)
  {
    hide IsPlatform, FindPair, Sub, Lower;
    TrimOfName(p, name);
    hide Trim, IsName;
    VariableStands(a, name, b);
  }

  lemma BoldIsRead(p: Platform, a: string, x: string, b: string)
    requires x != "" && '*' !in x
    ensures TokenAt(p, a + ("**" + x + "**") + b, |a|) == BoldToken(x, |a| + |x| + 4)
  {
    var s, open := a + ("**" + x + "**") + b, a + "**";
    assert s == open + x + ['*', '*'] + b;
    FindPairIs(open, x, '*', b);
    SubIs(open, x, "**" + b);
    assert s == open + x + ("**" + b);
    assert s[|a|] == '*' && s[|a| + 1] == '*';
  }

  lemma ItalicEnds(p: Platform, a: string, x: string, b: string)
    requires '_' !in x && IsClosed(x) && (b == "" || !p.letterOrDigit(b[0]))
    ensures ItalicEndOf(p, a + ("_" + x + "_") + b, |a| + 1) == |a| + 1 + |x|
  {
    hide ItalicEndOf, IsClosed;
    var open := a + "_";
    assert a + ("_" + x + "_") + b == open + x + "_" + b;
    ItalicEndIs(p, open, x, b, 0);
    assert |open| + 0 == |a| + 1;
  }

  lemma ItalicHolds(a: string, x: string, b: string)
    ensures Sub(a + ("_" + x + "_") + b, |a| + 1, |x|) == x
  {
    var s, open := a + ("_" + x + "_") + b, a + "_";
    SubIs(open, x, "_" + b);
    assert s == open + x + ("_" + b);
  }

  /** An italic part begins at an underscore that no letter and no digit precedes. */
  lemma ItalicIsRead(p: Platform, a: string, x: string, b: string)
    requires x != "" && '_' !in x && IsClosed(x) && (b == "" || !p.letterOrDigit(b[0]))
    requires a == "" || !p.letterOrDigit(a[|a| - 1])
    ensures TokenAt(p, a + ("_" + x + "_") + b, |a|) == ItalicToken(x, |a| + |x| + 2)
  {
    hide ItalicEndOf, Sub, IsClosed;
    ItalicEnds(p, a, x, b);
    ItalicHolds(a, x, b);
    var s := a + ("_" + x + "_") + b;
    assert s[|a|] == '_' && (a != "" ==> s[|a| - 1] == a[|a| - 1]);
  }

  lemma LinkIsRead(p: Platform, a: string, x: string, y: string, b: string)
    requires ']' !in x && HoldsNoParenthesis(y) && Trim(p, y) == y
    ensures TokenAt(p, a + ("[" + x + "](" + y + ")") + b, |a|) == LinkToken(x, y, |a| + |x| + |y| + 4)
  {
    var s := a + ("[" + x + "](" + y + ")") + b;
    BracketsAre(a, x, y, b);
    assert s == a + "[" + x + "](" + y + ")" + b;
    assert s[|a|] == '[';
  }

  lemma MentionIsRead(p: Platform, a: string, name: string, id: string, b: string)
    requires ']' !in name && Trim(p, name) == name && HoldsNoParenthesis(id) && Trim(p, id) == id != ""
    ensures TokenAt(p, a + ("@[" + name + "](" + id + ")") + b, |a|) ==
      MentionToken(name, id, |a| + |name| + |id| + 5)
  {
    var s := a + ("@[" + name + "](" + id + ")") + b;
    BracketsAre(a + "@", name, id, b);
    assert s == a + "@" + "[" + name + "](" + id + ")" + b;
    assert s[|a|] == '@' && s[|a| + 1] == '[';
  }

  lemma {:induction false} TextIsRead(p: Platform, a: string, value: string, b: string, text: string, done: seq<Node>)
    ensures var s := a + PrintedText(value) + b;
      Scan(p, s, |a|, text, done) == Scan(p, s, |a| + |PrintedText(value)|, text + value, done)
    decreases |value|
  {
    hide Scan;
    if value == "" {
      assert text + value == text;
    } else {
      var c, rest := value[0], PrintedText(value[1..]);
      var sign := if IsSpecial(c) then ['\\', c] else [c];
      var s := a + (sign + rest) + b;
      CharacterIsRead(p, a, c, rest + b, text, done);
      assert s == a + sign + (rest + b) == a + sign + rest + b;
      TextIsRead(p, a + sign, value[1..], b, text + [c], done);
      assert text + [c] + value[1..] == text + value;
    }
  }

  lemma CharacterIsRead(p: Platform, a: string, c: char, b: string, text: string, done: seq<Node>)
    ensures var sign := if IsSpecial(c) then ['\\', c] else [c];
      var s := a + sign + b;
      Scan(p, s, |a|, text, done) == Scan(p, s, |a| + |sign|, text + [c], done)
  {
    var sign := if IsSpecial(c) then ['\\', c] else [c];
    var s := a + sign + b;
    assert s[|a|] == sign[0];
    if IsSpecial(c) {
      assert s[|a| + 1] == c;
    } else {
      assert c != '\\' && c != '{' && c != '*' && c != '_' && c != '@' && c != '[';
    }
  }

  // ------------------------------------------------------------------ what is written is read back

  /** The text before does not keep an italic part from beginning. */
  predicate LeadsTo(p: Platform, before: string, nodes: seq<Node>) {
    nodes != [] && nodes[0].Italic? && before != "" ==> !p.letterOrDigit(before[|before| - 1])
  }

  lemma {:induction false} LastOfText(s: string)
    requires s != ""
    ensures PrintedText(s) != "" && PrintedText(s)[|PrintedText(s)| - 1] == s[|s| - 1]
  {
    if |s| > 1 {
      LastOfText(s[1..]);
    }
  }

  lemma NodeLeads(p: Platform, before: string, nodes: seq<Node>)
    requires IsPlatform(p) && nodes != [] && Writable(p, nodes)
    ensures LeadsTo(p, before + PrintedNode(nodes[0]), nodes[1..])
  {
    var piece := PrintedNode(nodes[0]);
    if |nodes| > 1 && nodes[1].Italic? {
      assert Adjacent(p, nodes[0], nodes[1]) && WritableNode(p, nodes[0]);
      if nodes[0].Text? {
        LastOfText(nodes[0].value);
      }
      assert (before + piece)[|before + piece| - 1] == piece[|piece| - 1];
    }
  }

  /** After an italic part no letter and no digit follows. */
  lemma NextIsNoLetter(p: Platform, nodes: seq<Node>)
    requires IsPlatform(p) && nodes != [] && Writable(p, nodes) && nodes[0].Italic?
    ensures var rest := Printed(nodes[1..]); rest == "" || !p.letterOrDigit(rest[0])
  {
    if |nodes| > 1 {
      assert Adjacent(p, nodes[0], nodes[1]) && WritableNode(p, nodes[1]);
      var piece := PrintedNode(nodes[1]);
      assert piece != "" && !p.letterOrDigit(piece[0]);
      assert Printed(nodes[1..]) == piece + Printed(nodes[1..][1..]);
    }
  }

  lemma PrintedInTwo(before: string, nodes: seq<Node>)
    requires nodes != []
    ensures before + Printed(nodes) == before + PrintedNode(nodes[0]) + Printed(nodes[1..])
  {
  }

  lemma PrintedIsNotEmpty(p: Platform, nodes: seq<Node>)
    requires nodes != [] && Writable(p, nodes)
    ensures Printed(nodes) != ""
  {
    assert WritableNode(p, nodes[0]);
  }

  lemma NothingIsRead(p: Platform, before: string, text: string, done: seq<Node>)
    ensures before + Printed([]) == before && Scan(p, before, |before|, text, done) == Flushed(done, text)
  {
  }

  /** The nodes of a written text, read on from some offset, are those that were written. */
  lemma {:induction false} ScanOfPrinted(p: Platform, before: string, nodes: seq<Node>, text: string, done: seq<Node>)
    requires IsPlatform(p) && Writable(p, nodes) && LeadsTo(p, before, nodes)
    requires text == "" || nodes == [] || !nodes[0].Text?
    ensures Scan(p, before + Printed(nodes), |before|, text, done) == Flushed(done, text) + nodes
    decreases nodes, 1, 1
  {
    if nodes == [] {
      NothingIsRead(p, before, text, done);
      assert Flushed(done, text) + nodes == Flushed(done, text);
    } else {
      RestIsWritable(p, before, nodes);
      hide *;
      if nodes[0].Text? {
        ScanOfText(p, before, nodes, done);
      } else {
        ScanOfNode(p, before, nodes, text, done);
      }
    }
  }

  lemma {:induction false} ScanOfText(p: Platform, before: string, nodes: seq<Node>, done: seq<Node>)
    requires IsPlatform(p) && nodes != [] && nodes[0].Text? && Writable(p, nodes)
    ensures Scan(p, before + Printed(nodes), |before|, "", done) == done + nodes
    decreases nodes, 1, 0
  {
    hide *;
    RestIsWritable(p, before, nodes);
    PrintedInTwo(before, nodes);
    PrintedOfText(nodes[0]);
    TextIsRead(p, before, nodes[0].value, Printed(nodes[1..]), "", done);
    ScanOfPrinted(p, before + PrintedNode(nodes[0]), nodes[1..], nodes[0].value, done);
    FirstAndRest(done, nodes[0].value, nodes);
  }

  lemma PrintedOfText(n: Node)
    requires n.Text?
    ensures PrintedNode(n) == PrintedText(n.value) && "" + n.value == n.value && n == Text(n.value)
  {
  }

  lemma {:induction false} ScanOfNode(p: Platform, before: string, nodes: seq<Node>, text: string, done: seq<Node>)
    requires IsPlatform(p) && nodes != [] && !nodes[0].Text? && Writable(p, nodes) && LeadsTo(p, before, nodes)
    ensures Scan(p, before + Printed(nodes), |before|, text, done) == Flushed(done, text) + nodes
    decreases nodes, 1, 0
  {
    hide *;
    var kept := Flushed(done, text) + [nodes[0]];
    RestIsWritable(p, before, nodes);
    PrintedInTwo(before, nodes);
    NodeIsRead(p, before, nodes, text, done);
    ScanOfPrinted(p, before + PrintedNode(nodes[0]), nodes[1..], "", kept);
    FirstAndRest(Flushed(done, text), "", nodes);
  }

  lemma FirstAndRest(done: seq<Node>, text: string, nodes: seq<Node>)
    requires nodes != []
    ensures done + [nodes[0]] + nodes[1..] == done + nodes
    ensures Flushed(done + [nodes[0]], "") == done + [nodes[0]]
    ensures text != "" && nodes[0] == Text(text) ==> Flushed(done, text) + nodes[1..] == done + nodes
  {
  }

  lemma RestIsWritable(p: Platform, before: string, nodes: seq<Node>)
    requires IsPlatform(p) && nodes != [] && Writable(p, nodes)
    ensures Writable(p, nodes[1..]) && LeadsTo(p, before + PrintedNode(nodes[0]), nodes[1..])
    ensures nodes[0].Text? ==> nodes[0].value != "" && (|nodes| == 1 || !nodes[1].Text?)
  {
    NodeLeads(p, before, nodes);
    assert WritableNode(p, nodes[0]);
    if |nodes| > 1 {
      assert Adjacent(p, nodes[0], nodes[1]);
    }
    forall k | 0 <= k < |nodes| - 2 ensures Adjacent(p, nodes[1..][k], nodes[1..][k + 1]) {
      assert Adjacent(p, nodes[k + 1], nodes[k + 2]);
    }
  }

  /** The token is the node, up to an offset. */
  ghost predicate IsTokenOf(p: Platform, t: Token, n: Node, next: nat) {
    !t.Letter? && t.next == next &&
    match t
    case VarToken(name, _) => n == Var(name)
    case BoldToken(inner, _) => n == Bold(Parsed(p, inner))
    case ItalicToken(inner, _) => n == Italic(Parsed(p, inner))
    case LinkToken(words, url, _) => n == Link(Parsed(p, words), Parsed(p, url))
    case MentionToken(name, id, _) => n == Mention(name, id)
    case _ => false
  }

  /** One round of the parser. */
  lemma TokenBecomesNode(p: Platform, s: string, i: nat, text: string, done: seq<Node>, n: Node, next: nat)
    requires i < |s| && IsTokenOf(p, TokenAt(p, s, i), n, next)
    ensures i < next <= |s| && Scan(p, s, i, text, done) == Scan(p, s, next, "", Flushed(done, text) + [n])
  {
    TokenIsSmaller(p, s, i);
    hide TokenAt, Flushed;
  }

  lemma {:induction false} NodeIsRead(p: Platform, before: string, nodes: seq<Node>, text: string, done: seq<Node>)
    requires IsPlatform(p) && nodes != [] && !nodes[0].Text? && Writable(p, nodes) && LeadsTo(p, before, nodes)
    ensures var s, next := before + Printed(nodes), |before| + |PrintedNode(nodes[0])|;
      next <= |s| && Scan(p, s, |before|, text, done) == Scan(p, s, next, "", Flushed(done, text) + [nodes[0]])
    decreases nodes, 0
  {
    hide IsTokenOf, TokenAt, Scan, PrintedNode, Printed, Writable, LeadsTo, IsPlatform;
    var piece, rest := PrintedNode(nodes[0]), Printed(nodes[1..]);
    NodeIsToken(p, before, nodes);
    PrintedInTwo(before, nodes);
    TokenBecomesNode(p, before + piece + rest, |before|, text, done, nodes[0], |before| + |piece|);
  }

  lemma {:induction false} NodeIsToken(p: Platform, before: string, nodes: seq<Node>)
    requires IsPlatform(p) && nodes != [] && !nodes[0].Text? && Writable(p, nodes) && LeadsTo(p, before, nodes)
    ensures var piece, rest := PrintedNode(nodes[0]), Printed(nodes[1..]);
      piece != "" && IsTokenOf(p, TokenAt(p, before + piece + rest, |before|), nodes[0], |before| + |piece|)
    decreases nodes, 0, 0
  {
    hide TokenAt, Scan;
    var n, rest := nodes[0], Printed(nodes[1..]);
    assert WritableNode(p, n);
    match n
    case Var(name) => VariableIsRead(p, before, name, rest);
    case Bold(children) =>
      PrintedIsNotEmpty(p, children);
      BoldIsRead(p, before, Printed(children), rest);
      PartIsRead(p, children);
    case Italic(children) =>
      NextIsNoLetter(p, nodes);
      PrintedIsNotEmpty(p, children);
      ItalicIsRead(p, before, Printed(children), rest);
      PartIsRead(p, children);
    case Link(children, url) =>
      LinkIsRead(p, before, Printed(children), Printed(url), rest);
      PartIsRead(p, children);
      PartIsRead(p, url);
    case Mention(name, id) => MentionIsRead(p, before, name, id, rest);
  }

  lemma {:induction false} PartIsRead(p: Platform, nodes: seq<Node>)
    requires IsPlatform(p) && Writable(p, nodes)
    ensures Parsed(p, Printed(nodes)) == nodes
    decreases nodes, 2
  {
    ScanOfPrinted(p, "", nodes, "", []);
    assert "" + Printed(nodes) == Printed(nodes);
  }

  /** What can be written is read back as it was: the parser undoes the writing. */
  lemma PrintedIsParsed(p: Platform, nodes: seq<Node>)
    requires IsPlatform(p) && Writable(p, nodes)
    ensures Parsed(p, Printed(nodes)) == nodes
  {
    PartIsRead(p, nodes);
  }

  // ------------------------------------------------------------------ a whole template

  predicate IsBullet(c: char) {
    c == '-' || c == '\U{2022}'
  }

  /** An item is written after a bullet and a space. */
  function PrintedLine(l: Line, bullet: char): string {
    if l.item then [bullet, ' '] + Printed(l.nodes) else Printed(l.nodes)
  }

  predicate WritableLine(p: Platform, l: Line) {
    var s := Printed(l.nodes);
    && Writable(p, l.nodes) && '\n' !in s && '\r' !in s
    && (l.item || |s| < 2 || !IsBullet(s[0]) || s[1] != ' ')
  }

  function PrintedLines(lines: seq<Line>, bullet: char): seq<string> {
    if lines == [] then [] else PrintedLines(lines[..|lines| - 1], bullet) + [PrintedLine(lines[|lines| - 1], bullet)]
  }

  lemma LineIsParsed(p: Platform, l: Line, bullet: char)
    requires IsPlatform(p) && IsBullet(bullet) && WritableLine(p, l)
    ensures LineOf(p, PrintedLine(l, bullet)) == l
    ensures '\n' !in PrintedLine(l, bullet) && '\r' !in PrintedLine(l, bullet)
  {
    hide IsPlatform, Writable, Printed, Scan;
    PrintedIsParsed(p, l.nodes);
    var raw := PrintedLine(l, bullet);
    if l.item {
      assert raw[2..] == Printed(l.nodes);
    }
  }

  lemma {:induction false} LinesAreParsed(p: Platform, lines: seq<Line>, bullet: char)
    requires IsPlatform(p) && IsBullet(bullet) && forall l :: l in lines ==> WritableLine(p, l)
    ensures LinesOf(p, PrintedLines(lines, bullet)) == lines && |PrintedLines(lines, bullet)| == |lines|
    ensures forall s :: s in PrintedLines(lines, bullet) ==> '\n' !in s && '\r' !in s
  {
    hide IsPlatform, WritableLine, LineOf, PrintedLine;
    if lines != [] {
      var front, l := lines[..|lines| - 1], lines[|lines| - 1];
      LinesAreParsed(p, front, bullet);
      LineIsParsed(p, l, bullet);
      assert PrintedLines(lines, bullet)[..|front|] == PrintedLines(front, bullet);
      assert front + [l] == lines;
    }
  }

  lemma {:induction false} NoReturnIsKept(s: string)
    requires '\r' !in s
    ensures WithoutReturns(s) == s
  {
    if s != "" {
      NoReturnIsKept(s[1..]);
      assert s == [s[0]] + s[1..];
    }
  }

  lemma {:induction false} JoinHoldsNoReturn(parts: seq<string>)
    requires forall s :: s in parts ==> '\r' !in s
    ensures '\r' !in S.Join(parts, "\n")
  {
    if |parts| > 1 {
      JoinHoldsNoReturn(parts[1..]);
    }
  }

  /** A template of lines that can be written, one below the other, is read back as those lines. */
  lemma TemplateIsParsed(p: Platform, lines: seq<Line>, bullet: char)
    requires IsPlatform(p) && IsBullet(bullet) && lines != [] && forall l :: l in lines ==> WritableLine(p, l)
    ensures var template := S.Join(PrintedLines(lines, bullet), "\n");
      LinesOf(p, S.Split(WithoutReturns(template), '\n')) == lines
  {
    var parts := PrintedLines(lines, bullet);
    LinesAreParsed(p, lines, bullet);
    JoinHoldsNoReturn(parts);
    NoReturnIsKept(S.Join(parts, "\n"));
    S.SplitOfJoin(parts, '\n');
  }
}
