/**
 Rendering a template for each channel, and the nesting of the HTML it gives, whatever the values of its variables.
 */
module TemplateHtml {
  import opened Template
  import opened TemplateLines

  datatype Channel = Plain | Slack | Teams | Html

  /** Encoding of text for HTML, whatever it is: its result has no angle bracket and no double quote. */
  ghost predicate IsEncoding(encode: string -> string) {
    forall s: string, c: char :: c in encode(s) ==> c != '<' && c != '>' && c != '"'
  }

  // ------------------------------------------------------------------ rendering of nodes

  function SlackEscape(s: string): string {
    if s == "" then ""
    else
      (if s[0] == '&' then "&amp;" else if s[0] == '<' then "&lt;" else if s[0] == '>' then "&gt;" else [s[0]])
      + SlackEscape(s[1..])
  }

  function Escape(ch: Channel, encode: string -> string, s: string): string {
    match ch
    case Html => encode(s)
    case Slack => SlackEscape(s)
    case Plain => s
    case Teams => s
  }

  /** An HTML element; the tag is its name and attributes. */
  function Element(tag: string, name: string, content: string): string {
    ("<" + tag + ">") + content + ("</" + name + ">")
  }

  /** A name with one attribute. */
  function Tag(name: string, attribute: string, value: string): string {
    name + (" " + attribute + "=\"" + value + "\"")
  }

  function Strong(ch: Channel, s: string): string {
    match ch
    case Html => Element("strong", "strong", s)
    case Slack => "*" + s + "*"
    case Teams => "**" + s + "**"
    case Plain => s
  }

  function Emphasized(ch: Channel, s: string): string {
    match ch
    case Html => Element("em", "em", s)
    case Slack => "_" + s + "_"
    case Teams => "_" + s + "_"
    case Plain => s
  }

  function Linked(ch: Channel, encode: string -> string, text: string, url: string): string {
    if url == "" then text
    else
      match ch
      case Html => Element(Tag("a", "href", encode(url)), "a", text)
      case Slack => "<" + url + "|" + text + ">"
      case Teams => "[" + text + "](" + url + ")"
      case Plain => if text == url then text else text + " (" + url + ")"
  }

  predicate IsId(p: Platform, id: string) {
    |id| > 1 && forall c :: c in id ==> p.letterOrDigit(c)
  }

  function Mentioned(p: Platform, ch: Channel, encode: string -> string, name: string, id: string): string {
    match ch
    case Html => Element("strong", "strong", "@" + encode(name))
    case Slack =>
      if id == "here" || id == "channel" || id == "everyone" then "<!" + id + ">"
      else if IsId(p, id) && (id[0] == 'U' || id[0] == 'W') then "<@" + id + ">"
      else if IsId(p, id) && id[0] == 'S' then "<!subteam^" + id + ">"
      else "@" + name
    case Teams => "<at>" + name + "</at>"
    case Plain => "@" + name
  }

  predicate StartsWith(p: Platform, s: string, prefix: string) {
    |prefix| <= |s| && forall k :: 0 <= k < |prefix| ==> p.lower(s[k]) == p.lower(prefix[k])
  }

  /** Only web addresses and mail addresses become links. */
  predicate IsWeb(p: Platform, url: string) {
    StartsWith(p, url, "https://") || StartsWith(p, url, "http://") || StartsWith(p, url, "mailto:")
  }

  function Wrapped(p: Platform, inner: string, styled: string): string {
    if IsBlankText(p, inner) then inner else styled
  }

  function LinkText(p: Platform, ch: Channel, encode: string -> string, inner: string, url: string): string {
    var text := if IsBlankText(p, inner) then Escape(ch, encode, url) else inner;
    if IsWeb(p, url) then Linked(ch, encode, text, url) else text
  }

  function Inline(p: Platform, ch: Channel, encode: string -> string, values: Values, nodes: seq<Node>): string
    decreases nodes, 1
  {
    if nodes == [] then ""
    else InlineNode(p, ch, encode, values, nodes[0]) + Inline(p, ch, encode, values, nodes[1..])
  }

  function InlineNode(p: Platform, ch: Channel, encode: string -> string, values: Values, n: Node): string
    decreases n, 0
  {
    match n
    case Text(value) => Escape(ch, encode, value)
    case Var(name) => Escape(ch, encode, ValueOf(values, name))
    case Bold(children) =>
      var inner := Inline(p, ch, encode, values, children);
      Wrapped(p, inner, Strong(ch, inner))
    case Italic(children) =>
      var inner := Inline(p, ch, encode, values, children);
      Wrapped(p, inner, Emphasized(ch, inner))
    case Link(children, url) =>
      LinkText(p, ch, encode, Inline(p, ch, encode, values, children), Trim(p, Inline(p, Plain, encode, values, url)))
    case Mention(name, id) => Mentioned(p, ch, encode, name, id)
  }

  /** The cases of one node. */
  method RenderNode(p: Platform, ch: Channel, encode: string -> string, values: Values, n: Node) returns (s: string)
    ensures s == InlineNode(p, ch, encode, values, n)
    decreases n, 0
  {
    match n {
      case Text(value) => s := Escape(ch, encode, value);
      case Var(name) => s := Escape(ch, encode, ValueOf(values, name));
      case Bold(children) =>
        var inner := RenderInline(p, ch, encode, values, children);
        s := if IsBlankText(p, inner) then inner else Strong(ch, inner);
      case Italic(children) =>
        var inner := RenderInline(p, ch, encode, values, children);
        s := if IsBlankText(p, inner) then inner else Emphasized(ch, inner);
      case Link(children, target) =>
        var url := RenderInline(p, Plain, encode, values, target);
        url := Trim(p, url);
        s := RenderInline(p, ch, encode, values, children);
        if IsBlankText(p, s) {
          s := Escape(ch, encode, url);
        }
        if IsWeb(p, url) {
          s := Linked(ch, encode, s, url);
        }
      case Mention(name, id) => s := Mentioned(p, ch, encode, name, id);
    }
  }

  method RenderInline(p: Platform, ch: Channel, encode: string -> string, values: Values, nodes: seq<Node>)
      returns (s: string)
    ensures s == Inline(p, ch, encode, values, nodes)
    decreases nodes, 1
  {
    s := "";
    var i := 0;
    while i < |nodes|
      invariant i <= |nodes|
      invariant s + Inline(p, ch, encode, values, nodes[i..]) == Inline(p, ch, encode, values, nodes)
    {
      var piece := RenderNode(p, ch, encode, values, nodes[i]);
      ghost var rest := Inline(p, ch, encode, values, nodes[i + 1..]);
      assert nodes[i..][1..] == nodes[i + 1..];
      assert s + (piece + rest) == s + piece + rest;
      s := s + piece;
      i := i + 1;
    }
  }

  // ------------------------------------------------------------------ rendering of lines

  const LIST_STYLE := "margin:0 0 8px;padding-left:20px"
  const GAP_STYLE := "height:8px"
  const PARAGRAPH_STYLE := "margin:0 0 6px"

  const LIST_END := "</" + "ul" + ">"

  const LIST := Tag("ul", "style", LIST_STYLE)
  const GAP := Tag("div", "style", GAP_STYLE)
  const PARAGRAPH := Tag("p", "style", PARAGRAPH_STYLE)

  /** The text so far, and whether a list is open. */
  datatype Page = Page(text: string, inList: bool)

  function Toggle(item: bool, inList: bool): string {
    if item == inList then "" else if item then "<" + LIST + ">" else LIST_END
  }

  function LineBlock(p: Platform, item: bool, html: string): string {
    if item then Element("li", "li", html)
    else if IsBlankText(p, html) then Element(GAP, "div", "")
    else Element(PARAGRAPH, "p", html)
  }

  function AddLine(p: Platform, encode: string -> string, values: Values, page: Page, l: Line): Page {
    Page(page.text + Toggle(l.item, page.inList) + LineBlock(p, l.item, Inline(p, Html, encode, values, l.nodes)),
      l.item)
  }

  function PageOf(p: Platform, encode: string -> string, values: Values, lines: seq<Line>): Page {
    if lines == [] then Page("", false)
    else AddLine(p, encode, values, PageOf(p, encode, values, lines[..|lines| - 1]), lines[|lines| - 1])
  }

  function HtmlOf(p: Platform, encode: string -> string, values: Values, lines: seq<Line>): string {
    var page := PageOf(p, encode, values, Displayed(p, values, lines));
    if page.inList then page.text + LIST_END else page.text
  }

  lemma PageStep(p: Platform, encode: string -> string, values: Values, lines: seq<Line>, i: nat)
    requires i < |lines|
    ensures PageOf(p, encode, values, lines[..i + 1]) ==
      AddLine(p, encode, values, PageOf(p, encode, values, lines[..i]), lines[i])
  {
    assert lines[..i + 1][..i] == lines[..i];
  }

  method RenderLine(p: Platform, encode: string -> string, values: Values, l: Line) returns (block: string)
    ensures block == LineBlock(p, l.item, Inline(p, Html, encode, values, l.nodes))
  {
    var html := RenderInline(p, Html, encode, values, l.nodes);
    if l.item {
      return Element("li", "li", html);
    }
    if IsBlankText(p, html) {
      return Element(GAP, "div", "");
    }
    block := Element(PARAGRAPH, "p", html);
  }

  method RenderHtml(p: Platform, encode: string -> string, values: Values, lines: seq<Line>) returns (s: string)
    ensures s == HtmlOf(p, encode, values, lines)
  {
    s := "";
    var inList := false;
    var visible := Visible(p, values, lines);
    for i := 0 to |visible|
      invariant Page(s, inList) == PageOf(p, encode, values, visible[..i])
    {
      var l := visible[i];
      PageStep(p, encode, values, visible, i);
      var block := RenderLine(p, encode, values, l);
      s := s + Toggle(l.item, inList) + block;
      inList := l.item;
    }
    assert visible[..|visible|] == visible;
    if inList {
      s := s + LIST_END;
    }
  }

  // ------------------------------------------------------------------ reading HTML

  /** A reader of tags: the open elements, innermost last, and the tag being read. */
  datatype State = Bad | Outside(stack: seq<string>) | Inside(stack: seq<string>, tag: string)

  predicate IsFlow(stack: seq<string>) {
    stack != [] && stack[|stack| - 1] != "ul"
  }

  /** Blocks stand at the top, items in a list, inline elements in a block or an item; no link stands in a link. */
  predicate MayOpen(stack: seq<string>, name: string) {
    if name == "ul" || name == "p" || name == "div" then stack == []
    else if name == "li" then stack == ["ul"]
    else if name == "strong" || name == "em" then IsFlow(stack)
    else name == "a" && IsFlow(stack) && "a" !in stack
  }

  function UpToSpace(s: string): string {
    if s == "" || s[0] == ' ' then "" else [s[0]] + UpToSpace(s[1..])
  }

  function Quotes(s: string): nat {
    if s == "" then 0 else (if s[0] == '"' then 1 else 0) + Quotes(s[1..])
  }

  /** What the end of a tag does; an opening tag has no attribute, or one whose value ends it. */
  function TagEnd(stack: seq<string>, tag: string): State {
    if tag != "" && tag[0] == '/' then
      if stack != [] && stack[|stack| - 1] == tag[1..] then Outside(stack[..|stack| - 1]) else Bad
    else
      var name := UpToSpace(tag);
      var quoted := Quotes(tag) == 2 && tag[|tag| - 1] == '"';
      if MayOpen(stack, name) && (tag == name || quoted) then Outside(stack + [name]) else Bad
  }

  /** Text stands inside a block, an item or an inline element only. */
  function Read(state: State, c: char): State {
    match state
    case Bad => Bad
    case Outside(stack) => if c == '<' then Inside(stack, "") else if c == '>' || !IsFlow(stack) then Bad else state
    case Inside(stack, tag) =>
      if c == '>' then TagEnd(stack, tag) else if c == '<' then Bad else Inside(stack, tag + [c])
  }

  function ReadAll(state: State, s: string): State
    decreases |s|
  {
    if s == "" then state else ReadAll(Read(state, s[0]), s[1..])
  }

  /** Every element is closed, in the reverse order of opening, and stands where it may. */
  predicate WellNested(html: string) {
    ReadAll(Outside([]), html) == Outside([])
  }

  lemma {:induction false} ReadInTwo(state: State, a: string, b: string)
    ensures ReadAll(state, a + b) == ReadAll(ReadAll(state, a), b)
    decreases |a|
  {
    if a == "" {
      assert a + b == b;
    } else {
      ReadInTwo(Read(state, a[0]), a[1..], b);
      assert (a + b)[1..] == a[1..] + b;
    }
  }

  predicate NoAngles(s: string) {
    forall i :: 0 <= i < |s| ==> s[i] != '<' && s[i] != '>'
  }

  lemma {:induction false} TextIsRead(stack: seq<string>, s: string)
    requires IsFlow(stack) && NoAngles(s)
    ensures ReadAll(Outside(stack), s) == Outside(stack)
  {
    if s != "" {
      TextIsRead(stack, s[1..]);
    }
  }

  lemma {:induction false} TagIsCollected(stack: seq<string>, tag: string, s: string)
    requires NoAngles(s)
    ensures ReadAll(Inside(stack, tag), s) == Inside(stack, tag + s)
    decreases |s|
  {
    if s == "" {
      assert tag + s == tag;
    } else {
      TagIsCollected(stack, tag + [s[0]], s[1..]);
      assert tag + [s[0]] + s[1..] == tag + s;
    }
  }

  lemma TagIsRead(stack: seq<string>, tag: string)
    requires NoAngles(tag)
    ensures ReadAll(Outside(stack), "<" + tag + ">") == TagEnd(stack, tag)
  {
    ReadInTwo(Outside(stack), "<" + tag, ">");
    ReadInTwo(Outside(stack), "<", tag);
    assert ReadAll(Outside(stack), "<") == Inside(stack, "");
    TagIsCollected(stack, "", tag);
    assert "" + tag == tag;
    assert ReadAll(Inside(stack, tag), ">") == TagEnd(stack, tag);
  }

  /** An element whose content leaves the open elements as they were does so too. */
  lemma ElementIsRead(stack: seq<string>, tag: string, name: string, content: string)
    requires NoAngles(tag) && NoAngles(name) && TagEnd(stack, tag) == Outside(stack + [name])
    requires ReadAll(Outside(stack + [name]), content) == Outside(stack + [name])
    ensures ReadAll(Outside(stack), Element(tag, name, content)) == Outside(stack)
  {
    var inside := stack + [name];
    TagIsRead(stack, tag);
    ReadInTwo(Outside(stack), "<" + tag + ">", content);
    ClosingIsRead(stack, name);
    ReadInTwo(Outside(stack), ("<" + tag + ">") + content, "</" + name + ">");
  }

  lemma ClosingIsRead(stack: seq<string>, name: string)
    requires NoAngles(name)
    ensures ReadAll(Outside(stack + [name]), "</" + name + ">") == Outside(stack)
  {
    var inside := stack + [name];
    assert "</" + name + ">" == "<" + ("/" + name) + ">";
    TagIsRead(inside, "/" + name);
    assert ("/" + name)[1..] == name && inside[..|inside| - 1] == stack;
  }

  lemma {:induction false} NameOfTag(name: string, rest: string)
    requires ' ' !in name && (rest == "" || rest[0] == ' ')
    ensures UpToSpace(name + rest) == name
  {
    if name == "" {
      assert name + rest == rest;
    } else {
      assert name[0] in name;
      NameOfTag(name[1..], rest);
      assert (name + rest)[1..] == name[1..] + rest;
    }
  }

  lemma {:induction false} QuotesInTwo(a: string, b: string)
    ensures Quotes(a + b) == Quotes(a) + Quotes(b)
  {
    if a == "" {
      assert a + b == b;
    } else {
      QuotesInTwo(a[1..], b);
      assert (a + b)[1..] == a[1..] + b;
    }
  }

  lemma {:induction false} NoQuotes(s: string)
    requires '"' !in s
    ensures Quotes(s) == 0
  {
    if s != "" {
      assert s[0] in s;
      NoQuotes(s[1..]);
    }
  }

  /** A tag with one attribute: its name, a space, the attribute's name and the quoted value. */
  lemma TagWithValue(stack: seq<string>, name: string, attribute: string, value: string)
    requires ' ' !in name && name != "" && name[0] != '/' && MayOpen(stack, name)
    requires '"' !in name && '"' !in attribute && '"' !in value
    ensures TagEnd(stack, Tag(name, attribute, value)) == Outside(stack + [name])
  {
    var rest := " " + attribute + "=\"" + value + "\"";
    var tag := name + rest;
    NameOfTag(name, rest);
    NoQuotes(name);
    QuotesInTwo(name, rest);
    OneValue(attribute, value);
    assert tag[|tag| - 1] == '"' && tag[0] == name[0];
  }

  lemma OneValue(attribute: string, value: string)
    requires '"' !in attribute && '"' !in value
    ensures Quotes(" " + attribute + "=\"" + value + "\"") == 2
  {
    NoQuotes(attribute);
    NoQuotes(value);
    QuotesInTwo(" ", attribute);
    QuotesInTwo(" " + attribute, "=\"");
    QuotesInTwo(" " + attribute + "=\"", value);
    QuotesInTwo(" " + attribute + "=\"" + value, "\"");
    assert Quotes("=\"") == 1 by {
      assert "=\""[1..] == "\"";
      assert "\""[1..] == "";
    }
    assert Quotes(" ") == 0 && Quotes("\"") == 1;
  }

  lemma PlainTag(stack: seq<string>, name: string)
    requires ' ' !in name && name != "" && name[0] != '/' && MayOpen(stack, name)
    ensures TagEnd(stack, name) == Outside(stack + [name])
  {
    NameOfTag(name, "");
    assert name + "" == name;
  }

  // ------------------------------------------------------------------ the HTML of a template is well nested

  /** Where inline content may stand: links in it need that no link is open. */
  predicate Fits(stack: seq<string>, linkless: bool) {
    IsFlow(stack) && ("a" in stack ==> linkless)
  }

  lemma EncodedIsSafe(encode: string -> string, s: string)
    requires IsEncoding(encode)
    ensures NoAngles(encode(s)) && '"' !in encode(s)
  {
    forall i | 0 <= i < |encode(s)| ensures encode(s)[i] != '<' && encode(s)[i] != '>' {
      assert encode(s)[i] in encode(s);
    }
  }

  lemma EncodedIsRead(encode: string -> string, stack: seq<string>, s: string)
    requires IsEncoding(encode) && IsFlow(stack)
    ensures ReadAll(Outside(stack), encode(s)) == Outside(stack)
  {
    EncodedIsSafe(encode, s);
    TextIsRead(stack, encode(s));
  }

  lemma InElementIsRead(stack: seq<string>, name: string, content: string)
    requires IsFlow(stack) && (name == "strong" || name == "em")
    requires ReadAll(Outside(stack + [name]), content) == Outside(stack + [name])
    ensures ReadAll(Outside(stack), Element(name, name, content)) == Outside(stack)
  {
    PlainTag(stack, name);
    ElementIsRead(stack, name, name, content);
  }

  lemma ElementWithValueIsRead(stack: seq<string>, name: string, attribute: string, value: string, content: string)
    requires ' ' !in name && name != "" && name[0] != '/' && MayOpen(stack, name)
    requires '"' !in name && '"' !in attribute && '"' !in value
    requires NoAngles(name) && NoAngles(attribute) && NoAngles(value)
    requires ReadAll(Outside(stack + [name]), content) == Outside(stack + [name])
    ensures ReadAll(Outside(stack), Element(Tag(name, attribute, value), name, content)) == Outside(stack)
  {
    TagWithValue(stack, name, attribute, value);
    assert NoAngles(Tag(name, attribute, value));
    ElementIsRead(stack, Tag(name, attribute, value), name, content);
  }

  lemma AnchorIsRead(encode: string -> string, stack: seq<string>, url: string, text: string)
    requires IsEncoding(encode) && IsFlow(stack) && "a" !in stack
    requires ReadAll(Outside(stack + ["a"]), text) == Outside(stack + ["a"])
    ensures ReadAll(Outside(stack), Linked(Html, encode, text, url)) == Outside(stack)
      || url == ""
  {
    if url != "" {
      var value := encode(url);
      EncodedIsSafe(encode, url);
      ElementWithValueIsRead(stack, "a", "href", value, text);
    }
  }

  lemma {:induction false} InlineIsRead(p: Platform, encode: string -> string, values: Values, nodes: seq<Node>,
      stack: seq<string>)
    requires IsEncoding(encode) && FlatLinks(nodes) && Fits(stack, Linkless(nodes))
    ensures ReadAll(Outside(stack), Inline(p, Html, encode, values, nodes)) == Outside(stack)
    decreases nodes, 1
  {
    if nodes != [] {
      NodeIsRead(p, encode, values, nodes[0], stack);
      InlineIsRead(p, encode, values, nodes[1..], stack);
      ReadInTwo(Outside(stack), InlineNode(p, Html, encode, values, nodes[0]),
        Inline(p, Html, encode, values, nodes[1..]));
    }
  }

  lemma {:induction false} NodeIsRead(p: Platform, encode: string -> string, values: Values, n: Node,
      stack: seq<string>)
    requires IsEncoding(encode) && FlatLinksNode(n) && Fits(stack, LinklessNode(n))
    ensures ReadAll(Outside(stack), InlineNode(p, Html, encode, values, n)) == Outside(stack)
    decreases n, 0
  {
    match n
    case Text(value) => EncodedIsRead(encode, stack, value);
    case Var(name) => EncodedIsRead(encode, stack, ValueOf(values, name));
    case Bold(children) => StyledIsRead(p, encode, values, children, stack, "strong");
    case Italic(children) => StyledIsRead(p, encode, values, children, stack, "em");
    case Link(children, url) => LinkIsRead(p, encode, values, children, url, stack);
    case Mention(name, _) =>
      var inside := stack + ["strong"];
      var text := "@" + encode(name);
      EncodedIsSafe(encode, name);
      TextIsRead(inside, text);
      InElementIsRead(stack, "strong", text);
  }

  lemma {:induction false} StyledIsRead(p: Platform, encode: string -> string, values: Values, children: seq<Node>,
      stack: seq<string>, name: string)
    requires IsEncoding(encode) && FlatLinks(children) && Fits(stack, Linkless(children))
             && (name == "strong" || name == "em")
    ensures var inner := Inline(p, Html, encode, values, children);
      && ReadAll(Outside(stack), inner) == Outside(stack)
      && ReadAll(Outside(stack), Element(name, name, inner)) == Outside(stack)
    decreases children, 2
  {
    InlineIsRead(p, encode, values, children, stack);
    InlineIsRead(p, encode, values, children, stack + [name]);
    InElementIsRead(stack, name, Inline(p, Html, encode, values, children));
  }

  lemma {:induction false} LinkIsRead(p: Platform, encode: string -> string, values: Values, children: seq<Node>,
      url: seq<Node>, stack: seq<string>)
    requires IsEncoding(encode) && Linkless(children) && FlatLinks(children) && IsFlow(stack) && "a" !in stack
    ensures ReadAll(Outside(stack), InlineNode(p, Html, encode, values, Link(children, url))) == Outside(stack)
    decreases children, 2
  {
    var inner := Inline(p, Html, encode, values, children);
    var target := Trim(p, Inline(p, Plain, encode, values, url));
    var text := if IsBlankText(p, inner) then encode(target) else inner;
    var inside := stack + ["a"];
    InlineIsRead(p, encode, values, children, stack);
    InlineIsRead(p, encode, values, children, inside);
    EncodedIsRead(encode, stack, target);
    EncodedIsRead(encode, inside, target);
    AnchorIsRead(encode, stack, target, text);
  }

  lemma StylesAreSafe()
    ensures NoAngles(LIST_STYLE) && '"' !in LIST_STYLE
    ensures NoAngles(GAP_STYLE) && '"' !in GAP_STYLE
    ensures NoAngles(PARAGRAPH_STYLE) && '"' !in PARAGRAPH_STYLE
  {
  }

  lemma BlockIsRead(p: Platform, item: bool, html: string)
    requires var stack := if item then ["ul", "li"] else ["p"]; ReadAll(Outside(stack), html) == Outside(stack)
    ensures ReadAll(Outside(ListStack(item)), LineBlock(p, item, html)) == Outside(ListStack(item))
  {
    if item {
      PlainTag(["ul"], "li");
      assert ["ul"] + ["li"] == ["ul", "li"];
      ElementIsRead(["ul"], "li", "li", html);
    } else {
      StylesAreSafe();
      assert [] + ["p"] == ["p"] && [] + ["div"] == ["div"];
      ElementWithValueIsRead([], "p", "style", PARAGRAPH_STYLE, html);
      ElementWithValueIsRead([], "div", "style", GAP_STYLE, "");
    }
  }

  function ListStack(inList: bool): seq<string> {
    if inList then ["ul"] else []
  }

  lemma ToggleIsRead(item: bool, inList: bool)
    ensures ReadAll(Outside(ListStack(inList)), Toggle(item, inList)) == Outside(ListStack(item))
  {
    assert [] + ["ul"] == ["ul"];
    if item && !inList {
      StylesAreSafe();
      TagWithValue([], "ul", "style", LIST_STYLE);
      assert NoAngles(LIST);
      TagIsRead([], LIST);
    } else if inList && !item {
      ClosingIsRead([], "ul");
    }
  }

  lemma LineIsRead(p: Platform, encode: string -> string, values: Values, page: Page, l: Line)
    requires IsEncoding(encode) && FlatLinks(l.nodes)
    requires ReadAll(Outside([]), page.text) == Outside(ListStack(page.inList))
    ensures var next := AddLine(p, encode, values, page, l);
      ReadAll(Outside([]), next.text) == Outside(ListStack(next.inList))
  {
    var html := Inline(p, Html, encode, values, l.nodes);
    var toggle := Toggle(l.item, page.inList);
    InlineIsRead(p, encode, values, l.nodes, if l.item then ["ul", "li"] else ["p"]);
    ToggleIsRead(l.item, page.inList);
    BlockIsRead(p, l.item, html);
    ReadInTwo(Outside([]), page.text, toggle);
    ReadInTwo(Outside([]), page.text + toggle, LineBlock(p, l.item, html));
  }

  lemma {:induction false} PageIsRead(p: Platform, encode: string -> string, values: Values, lines: seq<Line>)
    requires IsEncoding(encode) && forall l :: l in lines ==> FlatLinks(l.nodes)
    ensures var page := PageOf(p, encode, values, lines);
      ReadAll(Outside([]), page.text) == Outside(ListStack(page.inList))
  {
    if lines != [] {
      var front := lines[..|lines| - 1];
      PageIsRead(p, encode, values, front);
      LineIsRead(p, encode, values, PageOf(p, encode, values, front), lines[|lines| - 1]);
    }
  }

  lemma {:induction false} LinesHaveFlatLinks(p: Platform, raws: seq<string>)
    ensures forall l :: l in LinesOf(p, raws) ==> FlatLinks(l.nodes)
  {
    if raws != [] {
      var raw := raws[|raws| - 1];
      LinesHaveFlatLinks(p, raws[..|raws| - 1]);
      LinksAreFlat(p, if IsItem(raw) then raw[2..] else raw);
    }
  }

  /**
   For every template and all values of its variables, the HTML is well nested: lists hold items, paragraphs and gaps
   stand at the top, inline elements inside them, no link inside a link, and every element is closed in order.
   */
  lemma HtmlIsWellNested(p: Platform, encode: string -> string, values: Values, raws: seq<string>)
    requires IsEncoding(encode)
    ensures WellNested(HtmlOf(p, encode, values, LinesOf(p, raws)))
  {
    var lines := LinesOf(p, raws);
    var shown := Displayed(p, values, lines);
    LinesHaveFlatLinks(p, raws);
    ParagraphsAreKept(p, values, lines);
    PageIsRead(p, encode, values, shown);
    var page := PageOf(p, encode, values, shown);
    ToggleIsRead(false, page.inList);
    ReadInTwo(Outside([]), page.text, LIST_END);
  }
}
