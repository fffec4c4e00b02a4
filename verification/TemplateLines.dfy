/**
 The lines of a template and those that are displayed for given values of the variables: a line is left
 out when it has variables and all of them are empty, and blank lines are neither doubled nor kept at
 either end. The renderers work on the lines displayed.
 */
module TemplateLines {
  import opened Strings
  import opened Template

  datatype Line = Line(item: bool, nodes: seq<Node>)

  /** The values of the variables; a variable without a value is missing. */
  type Values = map<string, string>

  // ------------------------------------------------------------------ parsing a template

  function WithoutReturns(s: string): string {
    if s == "" then "" else (if s[0] == '\r' then "" else [s[0]]) + WithoutReturns(s[1..])
  }

  predicate IsItem(raw: string) {
    |raw| >= 2 && (raw[0] == '-' || raw[0] == '\U{2022}') && raw[1] == ' '
  }

  function LineOf(p: Platform, raw: string): Line {
    Line(IsItem(raw), Parsed(p, if IsItem(raw) then raw[2..] else raw))
  }

  function LinesOf(p: Platform, raws: seq<string>): seq<Line> {
    if raws == [] then [] else LinesOf(p, raws[..|raws| - 1]) + [LineOf(p, raws[|raws| - 1])]
  }

  method Parse(p: Platform, template: string) returns (lines: seq<Line>)
    ensures lines == LinesOf(p, Split(WithoutReturns(template), '\n'))
  {
    lines := [];
    var raws := Split(WithoutReturns(template), '\n');
    for i := 0 to |raws|
      invariant lines == LinesOf(p, raws[..i])
    {
      var raw := raws[i];
      var item := IsItem(raw);
      var nodes := ParseInline(p, if item then raw[2..] else raw);
      assert raws[..i + 1][..i] == raws[..i];
      lines := lines + [Line(item, nodes)];
    }
    assert raws[..|raws|] == raws;
  }

  // ------------------------------------------------------------------ blank and hidden lines

  predicate IsBlankText(p: Platform, s: string) {
    forall c :: c in s ==> p.white(c)
  }

  function ValueOf(values: Values, name: string): string {
    if name in values then values[name] else ""
  }

  /** The variables of a line in reading order, those inside its parts included. */
  function Names(nodes: seq<Node>): seq<string>
    decreases nodes, 1
  {
    if nodes == [] then [] else NamesOf(nodes[0]) + Names(nodes[1..])
  }

  function NamesOf(n: Node): seq<string>
    decreases n, 0
  {
    match n
    case Text(_) => []
    case Var(name) => [name]
    case Bold(children) => Names(children)
    case Italic(children) => Names(children)
    case Link(children, url) => Names(children) + Names(url)
    case Mention(_, _) => []
  }

  /** The line has variables and all of them are empty. */
  predicate IsHidden(p: Platform, values: Values, l: Line) {
    var names := Names(l.nodes);
    names != [] && forall n :: n in names ==> IsBlankText(p, ValueOf(values, n))
  }

  predicate IsBlank(p: Platform, l: Line) {
    !l.item && forall n :: n in l.nodes ==> n.Text? && IsBlankText(p, n.value)
  }

  function Shown(p: Platform, values: Values, lines: seq<Line>): seq<Line> {
    if lines == [] then []
    else
      var before := Shown(p, values, lines[..|lines| - 1]);
      if IsHidden(p, values, lines[|lines| - 1]) then before else before + [lines[|lines| - 1]]
  }

  // ------------------------------------------------------------------ the lines displayed

  /** One round of the loop of Visible. */
  function Keep(p: Platform, values: Values, kept: seq<Line>, l: Line): seq<Line> {
    if IsHidden(p, values, l) then kept
    else if IsBlank(p, l) && (kept == [] || IsBlank(p, kept[|kept| - 1])) then kept
    else kept + [l]
  }

  function Kept(p: Platform, values: Values, lines: seq<Line>): seq<Line> {
    if lines == [] then []
    else Keep(p, values, Kept(p, values, lines[..|lines| - 1]), lines[|lines| - 1])
  }

  function WithoutLastBlanks(p: Platform, kept: seq<Line>): seq<Line> {
    if kept != [] && IsBlank(p, kept[|kept| - 1]) then WithoutLastBlanks(p, kept[..|kept| - 1]) else kept
  }

  function Displayed(p: Platform, values: Values, lines: seq<Line>): seq<Line> {
    WithoutLastBlanks(p, Kept(p, values, lines))
  }

  method Collect(nodes: seq<Node>, before: seq<string>) returns (names: seq<string>)
    ensures names == before + Names(nodes)
    decreases nodes
  {
    names := before;
    var i := 0;
    while i < |nodes|
      invariant i <= |nodes|
      invariant names + Names(nodes[i..]) == before + Names(nodes)
    {
      ghost var rest := Names(nodes[i + 1..]);
      ghost var had := names;
      assert nodes[i..][1..] == nodes[i + 1..];
      match nodes[i] {
        case Text(_) =>
        case Var(name) => names := names + [name];
        case Bold(children) => names := Collect(children, names);
        case Italic(children) => names := Collect(children, names);
        case Link(children, url) =>
          names := Collect(children, names);
          names := Collect(url, names);
        case Mention(_, _) =>
      }
      assert names == had + NamesOf(nodes[i]);
      assert had + NamesOf(nodes[i]) + rest == had + (NamesOf(nodes[i]) + rest);
      i := i + 1;
    }
  }

  method AreAllEmpty(p: Platform, values: Values, nodes: seq<Node>) returns (hidden: bool)
    ensures forall item :: hidden == IsHidden(p, values, Line(item, nodes))
  {
    var names := Collect(nodes, []);
    assert names == Names(nodes);
    hidden := |names| > 0 && forall n :: n in names ==> IsBlankText(p, ValueOf(values, n));
  }

  method Visible(p: Platform, values: Values, lines: seq<Line>) returns (kept: seq<Line>)
    ensures kept == Displayed(p, values, lines)
  {
    kept := [];
    for i := 0 to |lines|
      invariant kept == Kept(p, values, lines[..i])
    {
      var l := lines[i];
      assert lines[..i + 1][..i] == lines[..i];
      assert Kept(p, values, lines[..i + 1]) == Keep(p, values, kept, l);
      var hidden := AreAllEmpty(p, values, l.nodes);
      assert hidden == IsHidden(p, values, Line(l.item, l.nodes));
      if hidden {
        continue;
      }
      if IsBlank(p, l) && (|kept| == 0 || IsBlank(p, kept[|kept| - 1])) {
        continue;
      }
      kept := kept + [l];
    }
    assert lines[..|lines|] == lines;
    while |kept| > 0 && IsBlank(p, kept[|kept| - 1])
      invariant WithoutLastBlanks(p, kept) == Displayed(p, values, lines)
      decreases |kept|
    {
      kept := kept[..|kept| - 1];
    }
  }

  // ------------------------------------------------------------------ what displaying keeps

  /** No blank line first, and no two in a row. */
  predicate Spaced(p: Platform, lines: seq<Line>) {
    && (lines != [] ==> !IsBlank(p, lines[0]))
    && forall k :: 0 <= k < |lines| - 1 ==> !(IsBlank(p, lines[k]) && IsBlank(p, lines[k + 1]))
  }

  /** The paragraphs ended by a blank line, and the one still open. */
  datatype Paragraphs = Paragraphs(ended: seq<seq<Line>>, last: seq<Line>)

  function Ended(c: Paragraphs): seq<seq<Line>> {
    if c.last == [] then c.ended else c.ended + [c.last]
  }

  function Cut(p: Platform, lines: seq<Line>): Paragraphs {
    if lines == [] then Paragraphs([], [])
    else
      var c := Cut(p, lines[..|lines| - 1]);
      var l := lines[|lines| - 1];
      if IsBlank(p, l) then Paragraphs(Ended(c), []) else Paragraphs(c.ended, c.last + [l])
  }

  /** The lines as groups separated by blank lines. */
  function ParagraphsOf(p: Platform, lines: seq<Line>): seq<seq<Line>> {
    Ended(Cut(p, lines))
  }

  lemma {:induction false} KeptIsSpaced(p: Platform, values: Values, lines: seq<Line>)
    ensures Spaced(p, Kept(p, values, lines))
    ensures forall l :: l in Kept(p, values, lines) ==> l in lines && !IsHidden(p, values, l)
  {
    if lines != [] {
      KeptIsSpaced(p, values, lines[..|lines| - 1]);
    }
  }

  lemma CutOfBlank(p: Platform, lines: seq<Line>, l: Line)
    requires IsBlank(p, l)
    ensures ParagraphsOf(p, lines + [l]) == ParagraphsOf(p, lines)
    ensures lines == [] || IsBlank(p, lines[|lines| - 1]) ==> Cut(p, lines + [l]) == Cut(p, lines)
  {
    assert (lines + [l])[..|lines|] == lines;
  }

  lemma OneMoreIsCutAlike(p: Platform, values: Values, kept: seq<Line>, shown: seq<Line>, l: Line)
    requires Cut(p, kept) == Cut(p, shown)
    ensures Cut(p, Keep(p, values, kept, l)) == Cut(p, if IsHidden(p, values, l) then shown else shown + [l])
  {
    assert (kept + [l])[..|kept|] == kept && (shown + [l])[..|shown|] == shown;
    if IsBlank(p, l) {
      CutOfBlank(p, kept, l);
    }
  }

  lemma {:induction false} KeptIsCutAlike(p: Platform, values: Values, lines: seq<Line>)
    ensures Cut(p, Kept(p, values, lines)) == Cut(p, Shown(p, values, lines))
  {
    if lines != [] {
      var front := lines[..|lines| - 1];
      KeptIsCutAlike(p, values, front);
      OneMoreIsCutAlike(p, values, Kept(p, values, front), Shown(p, values, front), lines[|lines| - 1]);
    }
  }

  lemma {:induction false} WithoutLastBlanksKeeps(p: Platform, kept: seq<Line>)
    ensures ParagraphsOf(p, WithoutLastBlanks(p, kept)) == ParagraphsOf(p, kept)
    ensures WithoutLastBlanks(p, kept) <= kept
    ensures var r := WithoutLastBlanks(p, kept); r != [] ==> !IsBlank(p, r[|r| - 1])
  {
    if kept != [] && IsBlank(p, kept[|kept| - 1]) {
      var front := kept[..|kept| - 1];
      WithoutLastBlanksKeeps(p, front);
      CutOfBlank(p, front, kept[|kept| - 1]);
      assert front + [kept[|kept| - 1]] == kept;
    }
  }

  /**
   Displaying keeps the paragraphs of the lines that are not hidden, each line in its place; between two paragraphs
   stands one blank line, and none stands at the ends.
   */
  lemma ParagraphsAreKept(p: Platform, values: Values, lines: seq<Line>)
    ensures var r := Displayed(p, values, lines);
      && ParagraphsOf(p, r) == ParagraphsOf(p, Shown(p, values, lines))
      && Spaced(p, r) && (r != [] ==> !IsBlank(p, r[|r| - 1]))
      && (forall l :: l in r ==> l in lines && !IsHidden(p, values, l))
  {
    hide Kept, Shown, Cut, WithoutLastBlanks, IsHidden;
    KeptIsSpaced(p, values, lines);
    KeptIsCutAlike(p, values, lines);
    WithoutLastBlanksKeeps(p, Kept(p, values, lines));
  }

  /** The lines that are neither hidden nor blank, in their order. */
  function Solid(p: Platform, values: Values, lines: seq<Line>): seq<Line> {
    if lines == [] then []
    else
      (if IsHidden(p, values, lines[0]) || IsBlank(p, lines[0]) then [] else [lines[0]])
      + Solid(p, values, lines[1..])
  }

  lemma {:induction false} SolidOfMore(p: Platform, values: Values, a: seq<Line>, b: seq<Line>)
    ensures Solid(p, values, a + b) == Solid(p, values, a) + Solid(p, values, b)
  {
    hide IsHidden, IsBlank;
    if a == [] {
      assert a + b == b;
    } else {
      SolidOfMore(p, values, a[1..], b);
      assert (a + b)[1..] == a[1..] + b && (a + b)[0] == a[0];
    }
  }

  lemma {:induction false} KeptIsSolid(p: Platform, values: Values, lines: seq<Line>)
    ensures Solid(p, values, Kept(p, values, lines)) == Solid(p, values, lines)
  {
    hide IsHidden, IsBlank;
    if lines != [] {
      var front, l := lines[..|lines| - 1], lines[|lines| - 1];
      KeptIsSolid(p, values, front);
      assert front + [l] == lines;
      SolidOfMore(p, values, front, [l]);
      SolidOfMore(p, values, Kept(p, values, front), [l]);
    }
  }

  lemma {:induction false} WithoutLastBlanksIsSolid(p: Platform, values: Values, kept: seq<Line>)
    ensures Solid(p, values, WithoutLastBlanks(p, kept)) == Solid(p, values, kept)
  {
    hide IsHidden, IsBlank;
    if kept != [] && IsBlank(p, kept[|kept| - 1]) {
      var front, l := kept[..|kept| - 1], kept[|kept| - 1];
      WithoutLastBlanksIsSolid(p, values, front);
      assert front + [l] == kept;
      SolidOfMore(p, values, front, [l]);
    }
  }

  /** Displaying keeps every line that is neither hidden nor blank, in order. */
  lemma SolidLinesAreKept(p: Platform, values: Values, lines: seq<Line>)
    ensures Solid(p, values, Displayed(p, values, lines)) == Solid(p, values, lines)
  {
    KeptIsSolid(p, values, lines);
    WithoutLastBlanksIsSolid(p, values, Kept(p, values, lines));
  }

  lemma LineIsKept(p: Platform, values: Values, kept: seq<Line>, l: Line)
    requires !IsHidden(p, values, l)
    requires IsBlank(p, l) ==> kept != [] && !IsBlank(p, kept[|kept| - 1])
    ensures Keep(p, values, kept, l) == kept + [l]
  {
  }

  lemma {:induction false} SpacedIsKept(p: Platform, values: Values, lines: seq<Line>)
    requires Spaced(p, lines) && forall l :: l in lines ==> !IsHidden(p, values, l)
    ensures Kept(p, values, lines) == lines
  {
    hide IsHidden, Keep;
    if lines != [] {
      var front, l := lines[..|lines| - 1], lines[|lines| - 1];
      SpacedIsKept(p, values, front);
      assert l in lines;
      assert front != [] ==> front[|front| - 1] == lines[|lines| - 2];
      LineIsKept(p, values, front, l);
      assert front + [l] == lines;
    }
  }

  /** What is displayed is displayed unchanged when taken as the lines of a template. */
  lemma DisplayingTwiceChangesNothing(p: Platform, values: Values, lines: seq<Line>)
    ensures var r := Displayed(p, values, lines); Displayed(p, values, r) == r
  {
    ParagraphsAreKept(p, values, lines);
    SpacedIsKept(p, values, Displayed(p, values, lines));
  }

  // ------------------------------------------------------------------ which lines are hidden or blank

  /** The variable stands somewhere in the nodes, in their parts or in the target of a link. */
  predicate Stands(v: string, nodes: seq<Node>)
    decreases nodes, 1
  {
    exists k :: 0 <= k < |nodes| && StandsIn(v, nodes[k])
  }

  predicate StandsIn(v: string, n: Node)
    decreases n, 0
  {
    match n
    case Text(_) => false
    case Var(name) => name == v
    case Bold(children) => Stands(v, children)
    case Italic(children) => Stands(v, children)
    case Link(children, url) => Stands(v, children) || Stands(v, url)
    case Mention(_, _) => false
  }

  lemma {:induction false} NamesStand(v: string, nodes: seq<Node>)
    ensures v in Names(nodes) <==> Stands(v, nodes)
    decreases nodes, 1
  {
    if nodes != [] {
      NamesStandIn(v, nodes[0]);
      NamesStand(v, nodes[1..]);
      if Stands(v, nodes[1..]) {
        var k :| 0 <= k < |nodes[1..]| && StandsIn(v, nodes[1..][k]);
        assert StandsIn(v, nodes[k + 1]);
      }
      if Stands(v, nodes) && !StandsIn(v, nodes[0]) {
        var k :| 0 <= k < |nodes| && StandsIn(v, nodes[k]);
        assert StandsIn(v, nodes[1..][k - 1]);
      }
    }
  }

  lemma {:induction false} NamesStandIn(v: string, n: Node)
    ensures v in NamesOf(n) <==> StandsIn(v, n)
    decreases n, 0
  {
    match n
    case Text(_) =>
    case Var(_) =>
    case Bold(children) => NamesStand(v, children);
    case Italic(children) => NamesStand(v, children);
    case Link(children, url) =>
      NamesStand(v, children);
      NamesStand(v, url);
    case Mention(_, _) =>
  }

  /** A line is left out exactly when a variable stands in it and none that does has a value with a visible sign. */
  lemma HiddenExactlyWhen(p: Platform, values: Values, l: Line)
    ensures IsHidden(p, values, l) <==>
      && (exists v :: Stands(v, l.nodes))
      && forall v :: Stands(v, l.nodes) && v in values ==> forall c :: c in values[v] ==> p.white(c)
  {
    var names := Names(l.nodes);
    forall v ensures v in names <==> Stands(v, l.nodes) {
      NamesStand(v, l.nodes);
    }
    if names != [] {
      assert names[0] in names && Stands(names[0], l.nodes);
    }
    if IsHidden(p, values, l) {
      forall v | Stands(v, l.nodes) && v in values ensures forall c :: c in values[v] ==> p.white(c) {
        assert v in names && IsBlankText(p, ValueOf(values, v));
      }
    }
  }
}
