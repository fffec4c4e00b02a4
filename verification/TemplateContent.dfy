/** What a rendered template shows, in each channel. */
module TemplateContent {
  import opened Template
  import opened TemplateLines
  import opened TemplateHtml

  // ------------------------------------------------------------------ what the text channels write

  /** The target of a link becomes one when it is a web address or a mail address, case ignored. */
  predicate IsLinkable(p: Platform, target: string) {
    exists a :: a in ["https://", "http://", "mailto:"] && BeginsWith(p, target, a)
  }

  predicate BeginsWith(p: Platform, s: string, beginning: string) {
    |beginning| <= |s| && Lower(p, s[..|beginning|]) == Lower(p, beginning)
  }

  function Unescaped(s: string): string {
    if s == "" then ""
    else if |s| >= 5 && s[..5] == "&amp;" then "&" + Unescaped(s[5..])
    else if |s| >= 4 && s[..4] == "&lt;" then "<" + Unescaped(s[4..])
    else if |s| >= 4 && s[..4] == "&gt;" then ">" + Unescaped(s[4..])
    else [s[0]] + Unescaped(s[1..])
  }

  lemma AmpersandIsRead(rest: string)
    ensures Unescaped("&amp;" + rest) == "&" + Unescaped(rest)
  {
    assert ("&amp;" + rest)[..5] == "&amp;" && ("&amp;" + rest)[5..] == rest;
  }

  lemma AngleIsRead(rest: string)
    ensures Unescaped("&lt;" + rest) == "<" + Unescaped(rest) && Unescaped("&gt;" + rest) == ">" + Unescaped(rest)
  {
    assert ("&lt;" + rest)[..4] == "&lt;" && ("&lt;" + rest)[4..] == rest && ("&lt;" + rest)[1] == 'l';
    assert ("&gt;" + rest)[..4] == "&gt;" && ("&gt;" + rest)[4..] == rest && ("&gt;" + rest)[1] == 'g';
  }

  lemma OtherIsRead(c: char, rest: string)
    requires c != '&'
    ensures Unescaped([c] + rest) == [c] + Unescaped(rest)
  {
    var s := [c] + rest;
    assert s[0] == c && s[1..] == rest;
    assert |s| >= 5 ==> s[..5][0] == c;
    assert |s| >= 4 ==> s[..4][0] == c;
  }

  lemma NothingIsUnescaped()
    ensures Unescaped("") == ""
  {
  }

  /** Slack shows the text that was escaped, and no character of it as a mark. */
  lemma {:induction false} SlackShowsTheText(s: string)
    ensures Unescaped(SlackEscape(s)) == s && '<' !in SlackEscape(s) && '>' !in SlackEscape(s)
  {
    NothingIsUnescaped();
    hide Unescaped;
    if s != "" {
      SlackShowsTheText(s[1..]);
      var rest := SlackEscape(s[1..]);
      AmpersandIsRead(rest);
      AngleIsRead(rest);
      if s[0] != '&' {
        OtherIsRead(s[0], rest);
      }
    }
  }

  function Safe(ch: Channel, s: string): string {
    if ch.Slack? then SlackEscape(s) else s
  }

  function Marked(p: Platform, inner: string, mark: string): string {
    if forall c :: c in inner ==> p.white(c) then inner else mark + inner + mark
  }

  /** What a text channel writes for a line: its pieces in order, each with the marks of the channel around it. */
  function Written(p: Platform, ch: Channel, values: Values, nodes: seq<Node>): string
    requires !ch.Html?
    decreases nodes, 1
  {
    if nodes == [] then "" else WrittenNode(p, ch, values, nodes[0]) + Written(p, ch, values, nodes[1..])
  }

  function WrittenNode(p: Platform, ch: Channel, values: Values, n: Node): string
    requires !ch.Html?
    decreases n, 0
  {
    match n
    case Text(value) => Safe(ch, value)
    case Var(name) => if name in values then Safe(ch, values[name]) else ""
    case Bold(children) =>
      Marked(p, Written(p, ch, values, children), if ch.Plain? then "" else if ch.Slack? then "*" else "**")
    case Italic(children) => Marked(p, Written(p, ch, values, children), if ch.Plain? then "" else "_")
    case Link(children, url) =>
      WrittenLink(p, ch, Written(p, ch, values, children), Trim(p, Written(p, Plain, values, url)))
    case Mention(name, id) =>
      if ch.Plain? then "@" + name else if ch.Teams? then "<at>" + name + "</at>" else SlackMention(p, name, id)
  }

  /** The words of a link, or its target where they are blank, and the target of one that is linkable. */
  function WrittenLink(p: Platform, ch: Channel, inner: string, target: string): string
    requires !ch.Html?
  {
    var words := if forall c :: c in inner ==> p.white(c) then Safe(ch, target) else inner;
    if !IsLinkable(p, target) then words
    else
      match ch
      case Slack => "<" + target + "|" + words + ">"
      case Teams => "[" + words + "](" + target + ")"
      case _ => if words == target then words else words + " (" + target + ")"
  }

  /** Groups of people by their words, people and teams by their identifiers, others by name. */
  function SlackMention(p: Platform, name: string, id: string): string {
    if id in {"here", "channel", "everyone"} then "<!" + id + ">"
    else if |id| < 2 || (exists c :: c in id && !p.letterOrDigit(c)) then "@" + name
    else if id[0] in "UW" then "<@" + id + ">"
    else if id[0] in "S" then "<!subteam^" + id + ">"
    else "@" + name
  }

  lemma {:induction false} LowerOfMany(p: Platform, a: string, b: string)
    requires |a| == |b|
    ensures Lower(p, a) == Lower(p, b) <==> forall k :: 0 <= k < |a| ==> p.lower(a[k]) == p.lower(b[k])
  {
    if a != "" {
      LowerOfMany(p, a[1..], b[1..]);
      assert Lower(p, a) == Lower(p, b) <==> p.lower(a[0]) == p.lower(b[0]) && Lower(p, a[1..]) == Lower(p, b[1..]) by {
        assert Lower(p, a)[1..] == Lower(p, a[1..]) && Lower(p, b)[1..] == Lower(p, b[1..]);
      }
      if forall k :: 0 <= k < |a[1..]| ==> p.lower(a[1..][k]) == p.lower(b[1..][k]) {
        forall k | 1 <= k < |a| ensures p.lower(a[k]) == p.lower(b[k]) {
          assert p.lower(a[1..][k - 1]) == p.lower(b[1..][k - 1]);
        }
      }
    }
  }

  lemma StartsWithIs(p: Platform, s: string, beginning: string)
    ensures StartsWith(p, s, beginning) <==> BeginsWith(p, s, beginning)
  {
    if |beginning| <= |s| {
      LowerOfMany(p, s[..|beginning|], beginning);
      assert forall k :: 0 <= k < |beginning| ==> s[..|beginning|][k] == s[k];
    }
  }

  lemma WebIs(p: Platform, target: string)
    ensures IsWeb(p, target) <==> IsLinkable(p, target)
    ensures IsLinkable(p, target) ==> target != ""
  {
    var all := ["https://", "http://", "mailto:"];
    assert all[0] in all && all[1] in all && all[2] in all;
    StartsWithIs(p, target, all[0]);
    StartsWithIs(p, target, all[1]);
    StartsWithIs(p, target, all[2]);
  }

  /** Plain text, Slack and Teams: what is rendered is what the channel writes. */
  lemma {:induction false} RenderingIsWritten(p: Platform, ch: Channel, encode: string -> string, values: Values,
      nodes: seq<Node>)
    requires !ch.Html?
    ensures Inline(p, ch, encode, values, nodes) == Written(p, ch, values, nodes)
    decreases nodes, 1
  {
    if nodes != [] {
      NodeIsWritten(p, ch, encode, values, nodes[0]);
      RenderingIsWritten(p, ch, encode, values, nodes[1..]);
    }
  }

  lemma {:induction false} NodeIsWritten(p: Platform, ch: Channel, encode: string -> string, values: Values, n: Node)
    requires !ch.Html?
    ensures InlineNode(p, ch, encode, values, n) == WrittenNode(p, ch, values, n)
    decreases n, 0
  {
    hide Mentioned, SlackMention, LinkText, WrittenLink, Wrapped, Marked, Strong, Emphasized;
    match n
    case Text(_) =>
    case Var(_) =>
    case Bold(children) =>
      RenderingIsWritten(p, ch, encode, values, children);
      StyledIsWritten(p, ch, Written(p, ch, values, children));
    case Italic(children) =>
      RenderingIsWritten(p, ch, encode, values, children);
      StyledIsWritten(p, ch, Written(p, ch, values, children));
    case Link(children, url) =>
      RenderingIsWritten(p, ch, encode, values, children);
      RenderingIsWritten(p, Plain, encode, values, url);
      LinkIsWritten(p, ch, encode, Written(p, ch, values, children), Trim(p, Written(p, Plain, values, url)));
    case Mention(name, id) => MentionIsWritten(p, ch, encode, name, id);
  }

  lemma StyledIsWritten(p: Platform, ch: Channel, inner: string)
    requires !ch.Html?
    ensures Wrapped(p, inner, Strong(ch, inner)) ==
      Marked(p, inner, if ch.Plain? then "" else if ch.Slack? then "*" else "**")
    ensures Wrapped(p, inner, Emphasized(ch, inner)) == Marked(p, inner, if ch.Plain? then "" else "_")
  {
    assert "" + inner + "" == inner;
  }

  lemma LinkIsWritten(p: Platform, ch: Channel, encode: string -> string, inner: string, target: string)
    requires !ch.Html?
    ensures LinkText(p, ch, encode, inner, target) == WrittenLink(p, ch, inner, target)
  {
    WebIs(p, target);
  }

  lemma MentionIsWritten(p: Platform, ch: Channel, encode: string -> string, name: string, id: string)
    requires !ch.Html?
    ensures Mentioned(p, ch, encode, name, id) ==
      if ch.Plain? then "@" + name else if ch.Teams? then "<at>" + name + "</at>" else SlackMention(p, name, id)
  {
  }

  lemma {:induction false} TextsAreWhite(p: Platform, values: Values, nodes: seq<Node>)
    requires forall n :: n in nodes ==> n.Text?
    ensures (forall n :: n in nodes ==> forall c :: c in n.value ==> p.white(c)) <==>
      forall c :: c in Written(p, Plain, values, nodes) ==> p.white(c)
  {
    if nodes != [] {
      TextsAreWhite(p, values, nodes[1..]);
      var text, others := WrittenNode(p, Plain, values, nodes[0]), Written(p, Plain, values, nodes[1..]);
      assert nodes[0] in nodes && text == nodes[0].value;
      assert forall c :: c in text + others <==> c in text || c in others;
      assert forall n :: n in nodes <==> n == nodes[0] || n in nodes[1..];
    }
  }

  /** A line is blank exactly when it is no item, holds texts only, and nothing but white space is read in it. */
  lemma BlankExactlyWhen(p: Platform, values: Values, l: Line)
    ensures IsBlank(p, l) <==>
      && !l.item && (forall n :: n in l.nodes ==> n.Text?)
      && forall c :: c in Written(p, Plain, values, l.nodes) ==> p.white(c)
  {
    if forall n :: n in l.nodes ==> n.Text? {
      TextsAreWhite(p, values, l.nodes);
    }
  }

  // ------------------------------------------------------------------ reading back what HTML shows

  /** Where a character stands: the tags around it, outermost first, the number of its line and of its list. */
  datatype Place = Place(around: seq<string>, line: nat, list: nat)

  datatype Glyph = Glyph(c: char, place: Place)

  /** What was seen so far and the place reached, between tags or in one. */
  datatype Sight = Between(glyphs: seq<Glyph>, place: Place) | InTag(glyphs: seq<Glyph>, place: Place, tag: string)

  function Within(place: Place, tag: string): Place {
    place.(around := place.around + [tag])
  }

  /** A closing tag ends the innermost element; items, paragraphs and gaps begin a line. */
  function Passed(place: Place, tag: string): Place {
    if tag != "" && tag[0] == '/' then
      place.(around := if place.around == [] then [] else place.around[..|place.around| - 1])
    else
      var name := UpToSpace(tag);
      Place(place.around + [tag],
        place.line + if name in {"li", "p", "div"} then 1 else 0,
        place.list + if name == "ul" then 1 else 0)
  }

  function See(s: Sight, c: char): Sight {
    match s
    case Between(glyphs, place) =>
      if c == '<' then InTag(glyphs, place, "") else Between(glyphs + [Glyph(c, place)], place)
    case InTag(glyphs, place, tag) =>
      if c == '>' then Between(glyphs, Passed(place, tag)) else InTag(glyphs, place, tag + [c])
  }

  function SeeAll(s: Sight, html: string): Sight
    decreases |html|
  {
    if html == "" then s else SeeAll(See(s, html[0]), html[1..])
  }

  lemma {:induction false} SeeInTwo(s: Sight, a: string, b: string)
    ensures SeeAll(s, a + b) == SeeAll(SeeAll(s, a), b)
    decreases |a|
  {
    if a == "" {
      assert a + b == b;
    } else {
      SeeInTwo(See(s, a[0]), a[1..], b);
      assert (a + b)[1..] == a[1..] + b;
    }
  }

  /** A text at a place. */
  function At(text: string, place: Place): seq<Glyph> {
    seq(|text|, i requires 0 <= i < |text| => Glyph(text[i], place))
  }

  lemma {:induction false} TextIsSeen(glyphs: seq<Glyph>, place: Place, s: string)
    requires NoAngles(s)
    ensures SeeAll(Between(glyphs, place), s) == Between(glyphs + At(s, place), place)
    decreases |s|
  {
    if s == "" {
      assert glyphs + At(s, place) == glyphs;
    } else {
      TextIsSeen(glyphs + [Glyph(s[0], place)], place, s[1..]);
      assert glyphs + [Glyph(s[0], place)] + At(s[1..], place) == glyphs + At(s, place);
    }
  }

  lemma {:induction false} TagIsSeen(glyphs: seq<Glyph>, place: Place, tag: string, s: string)
    requires NoAngles(s)
    ensures SeeAll(InTag(glyphs, place, tag), s) == InTag(glyphs, place, tag + s)
    decreases |s|
  {
    if s == "" {
      assert tag + s == tag;
    } else {
      TagIsSeen(glyphs, place, tag + [s[0]], s[1..]);
      assert tag + [s[0]] + s[1..] == tag + s;
    }
  }

  lemma TagIsPassed(glyphs: seq<Glyph>, place: Place, tag: string)
    requires NoAngles(tag)
    ensures SeeAll(Between(glyphs, place), "<" + tag + ">") == Between(glyphs, Passed(place, tag))
  {
    var start := Between(glyphs, place);
    SeeInTwo(start, "<" + tag, ">");
    SeeInTwo(start, "<", tag);
    assert SeeAll(start, "<") == InTag(glyphs, place, "");
    TagIsSeen(glyphs, place, "", tag);
    assert "" + tag == tag;
    assert SeeAll(InTag(glyphs, place, tag), ">") == Between(glyphs, Passed(place, tag));
  }

  /** An element around a content that is seen as some glyphs. */
  lemma ElementIsSeen(glyphs: seq<Glyph>, place: Place, tag: string, name: string, content: string, more: seq<Glyph>)
    requires NoAngles(tag) && NoAngles(name) && tag != "" && tag[0] != '/'
    requires var inside := Passed(place, tag);
      SeeAll(Between(glyphs, inside), content) == Between(glyphs + more, inside)
    ensures SeeAll(Between(glyphs, place), Element(tag, name, content)) ==
      Between(glyphs + more, Passed(place, tag).(around := place.around))
  {
    var start, inside := Between(glyphs, place), Passed(place, tag);
    TagIsPassed(glyphs, place, tag);
    SeeInTwo(start, "<" + tag + ">", content);
    assert "</" + name + ">" == "<" + ("/" + name) + ">";
    TagIsPassed(glyphs + more, inside, "/" + name);
    assert inside.around[..|inside.around| - 1] == place.around;
    SeeInTwo(start, ("<" + tag + ">") + content, "</" + name + ">");
  }

  // ------------------------------------------------------------------ what a line shows

  /** A mention, or a link to a target that is linkable, at any depth. */
  predicate HoldsElement(p: Platform, values: Values, nodes: seq<Node>)
    decreases nodes, 1
  {
    exists k :: 0 <= k < |nodes| && IsElement(p, values, nodes[k])
  }

  predicate IsElement(p: Platform, values: Values, n: Node)
    decreases n, 0
  {
    match n
    case Text(_) => false
    case Var(_) => false
    case Bold(children) => HoldsElement(p, values, children)
    case Italic(children) => HoldsElement(p, values, children)
    case Link(children, url) => IsLinkable(p, Target(p, values, url)) || HoldsElement(p, values, children)
    case Mention(_, _) => true
  }

  function Target(p: Platform, values: Values, url: seq<Node>): string {
    Trim(p, Written(p, Plain, values, url))
  }

  predicate IsSilent(p: Platform, glyphs: seq<Glyph>) {
    forall g :: g in glyphs ==> p.white(g.c)
  }

  /**
   What a line shows at a place: in order, each text, the value of each variable, the words of each link (or its
   target where they show nothing) and the name of each mention. Bold content stands in "strong", italic content
   in "em", except where it shows nothing; the words of a link to a linkable target stand in "a", which holds it.
   */
  function Content(p: Platform, encode: string -> string, values: Values, nodes: seq<Node>, place: Place): seq<Glyph>
    decreases nodes, 1
  {
    if nodes == [] then []
    else ContentOf(p, encode, values, nodes[0], place) + Content(p, encode, values, nodes[1..], place)
  }

  function ContentOf(p: Platform, encode: string -> string, values: Values, n: Node, place: Place): seq<Glyph>
    decreases n, 0
  {
    match n
    case Text(value) => At(encode(value), place)
    case Var(name) => At(encode(if name in values then values[name] else ""), place)
    case Bold(children) =>
      var silent := ShowsNothing(p, encode, values, children, place);
      Content(p, encode, values, children, if silent then place else Within(place, "strong"))
    case Italic(children) =>
      var silent := ShowsNothing(p, encode, values, children, place);
      Content(p, encode, values, children, if silent then place else Within(place, "em"))
    case Link(children, url) =>
      var target := Target(p, values, url);
      var inside := if IsLinkable(p, target) then Within(place, "a href=\"" + encode(target) + "\"") else place;
      if ShowsNothing(p, encode, values, children, place) then At(encode(target), inside)
      else Content(p, encode, values, children, inside)
    case Mention(name, _) => At("@" + encode(name), Within(place, "strong"))
  }

  predicate ShowsNothing(p: Platform, encode: string -> string, values: Values, nodes: seq<Node>, place: Place)
    decreases nodes, 2
  {
    IsSilent(p, Content(p, encode, values, nodes, place)) && !HoldsElement(p, values, nodes)
  }

  lemma SilentText(p: Platform, s: string, place: Place)
    ensures IsSilent(p, At(s, place)) <==> IsBlankText(p, s)
  {
    if IsSilent(p, At(s, place)) {
      forall c | c in s ensures p.white(c) {
        var k :| 0 <= k < |s| && s[k] == c;
        assert At(s, place)[k] in At(s, place);
      }
    }
  }

  lemma ElementIsNotBlank(p: Platform, tag: string, name: string, content: string)
    requires !p.white('<')
    ensures !IsBlankText(p, Element(tag, name, content))
  {
    assert Element(tag, name, content)[0] == '<';
  }

  /** Inline content is blank exactly when it shows nothing. */
  lemma {:induction false} BlankIs(p: Platform, encode: string -> string, values: Values, nodes: seq<Node>,
      place: Place)
    requires !p.white('<')
    ensures IsBlankText(p, Inline(p, Html, encode, values, nodes)) <==>
      ShowsNothing(p, encode, values, nodes, place)
    decreases nodes, 1
  {
    if nodes != [] {
      NodeBlankIs(p, encode, values, nodes[0], place);
      BlankIs(p, encode, values, nodes[1..], place);
      FirstOrOther(p, values, nodes);
      BothBlank(p, InlineNode(p, Html, encode, values, nodes[0]), Inline(p, Html, encode, values, nodes[1..]));
      BothSilent(p, ContentOf(p, encode, values, nodes[0], place), Content(p, encode, values, nodes[1..], place));
    }
  }

  lemma FirstOrOther(p: Platform, values: Values, nodes: seq<Node>)
    requires nodes != []
    ensures HoldsElement(p, values, nodes) <==>
      IsElement(p, values, nodes[0]) || HoldsElement(p, values, nodes[1..])
  {
    if HoldsElement(p, values, nodes) && !IsElement(p, values, nodes[0]) {
      var k :| 0 <= k < |nodes| && IsElement(p, values, nodes[k]);
      assert nodes[1..][k - 1] == nodes[k];
    }
    if HoldsElement(p, values, nodes[1..]) {
      var k :| 0 <= k < |nodes[1..]| && IsElement(p, values, nodes[1..][k]);
      assert nodes[k + 1] == nodes[1..][k];
    }
  }

  lemma BothBlank(p: Platform, a: string, b: string)
    ensures IsBlankText(p, a + b) <==> IsBlankText(p, a) && IsBlankText(p, b)
  {
    assert forall c :: c in a + b <==> c in a || c in b;
  }

  lemma BothSilent(p: Platform, a: seq<Glyph>, b: seq<Glyph>)
    ensures IsSilent(p, a + b) <==> IsSilent(p, a) && IsSilent(p, b)
  {
    assert forall g :: g in a + b <==> g in a || g in b;
  }

  lemma {:induction false} NodeBlankIs(p: Platform, encode: string -> string, values: Values, n: Node, place: Place)
    requires !p.white('<')
    ensures IsBlankText(p, InlineNode(p, Html, encode, values, n)) <==>
      IsSilent(p, ContentOf(p, encode, values, n, place)) && !IsElement(p, values, n)
    decreases n, 0
  {
    match n
    case Text(value) => SilentText(p, encode(value), place);
    case Var(name) => SilentText(p, encode(ValueOf(values, name)), place);
    case Bold(children) => StyledBlankIs(p, encode, values, children, place, "strong");
    case Italic(children) => StyledBlankIs(p, encode, values, children, place, "em");
    case Link(children, url) =>
      var target, inner := Target(p, values, url), Inline(p, Html, encode, values, children);
      RenderingIsWritten(p, Plain, encode, values, url);
      WebIs(p, target);
      BlankIs(p, encode, values, children, place);
      SilentText(p, encode(target), place);
      if IsLinkable(p, target) {
        var text := if IsBlankText(p, inner) then encode(target) else inner;
        ElementIsNotBlank(p, Tag("a", "href", encode(target)), "a", text);
      }
    case Mention(name, _) => ElementIsNotBlank(p, "strong", "strong", "@" + encode(name));
  }

  lemma {:induction false} StyledBlankIs(p: Platform, encode: string -> string, values: Values, children: seq<Node>,
      place: Place, name: string)
    requires !p.white('<')
    ensures var inner := Inline(p, Html, encode, values, children);
      var silent := ShowsNothing(p, encode, values, children, place);
      && (IsBlankText(p, inner) <==> silent)
      && !IsBlankText(p, Element(name, name, inner))
      && (!silent ==> !ShowsNothing(p, encode, values, children, Within(place, name)))
    decreases children, 2
  {
    BlankIs(p, encode, values, children, place);
    BlankIs(p, encode, values, children, Within(place, name));
    ElementIsNotBlank(p, name, name, Inline(p, Html, encode, values, children));
  }

  // ------------------------------------------------------------------ the HTML shows the content

  lemma NoTextIsSeen(s: Sight)
    ensures SeeAll(s, "") == s
  {
  }

  lemma {:induction false} ContentIsSeen(p: Platform, encode: string -> string, values: Values, nodes: seq<Node>,
      glyphs: seq<Glyph>, place: Place)
    requires IsEncoding(encode) && !p.white('<')
    ensures SeeAll(Between(glyphs, place), Inline(p, Html, encode, values, nodes)) ==
      Between(glyphs + Content(p, encode, values, nodes, place), place)
    decreases nodes, 1
  {
    NoTextIsSeen(Between(glyphs, place));
    hide SeeAll, IsEncoding, InlineNode, ContentOf;
    if nodes == [] {
      assert glyphs + [] == glyphs;
    } else {
      var first, others := ContentOf(p, encode, values, nodes[0], place), Content(p, encode, values, nodes[1..], place);
      NodeIsSeen(p, encode, values, nodes[0], glyphs, place);
      ContentIsSeen(p, encode, values, nodes[1..], glyphs + first, place);
      SeeInTwo(Between(glyphs, place), InlineNode(p, Html, encode, values, nodes[0]),
        Inline(p, Html, encode, values, nodes[1..]));
      assert glyphs + first + others == glyphs + (first + others);
    }
  }

  lemma EncodedIsSeen(encode: string -> string, s: string, glyphs: seq<Glyph>, place: Place)
    requires IsEncoding(encode)
    ensures SeeAll(Between(glyphs, place), encode(s)) == Between(glyphs + At(encode(s), place), place)
  {
    EncodedIsSafe(encode, s);
    TextIsSeen(glyphs, place, encode(s));
  }

  lemma {:induction false} NodeIsSeen(p: Platform, encode: string -> string, values: Values, n: Node,
      glyphs: seq<Glyph>, place: Place)
    requires IsEncoding(encode) && !p.white('<')
    ensures SeeAll(Between(glyphs, place), InlineNode(p, Html, encode, values, n)) ==
      Between(glyphs + ContentOf(p, encode, values, n, place), place)
    decreases n, 0
  {
    match n
    case Text(value) => EncodedIsSeen(encode, value, glyphs, place);
    case Var(name) => EncodedIsSeen(encode, ValueOf(values, name), glyphs, place);
    case Bold(children) => StyledIsSeen(p, encode, values, children, glyphs, place, "strong");
    case Italic(children) => StyledIsSeen(p, encode, values, children, glyphs, place, "em");
    case Link(children, url) => LinkIsSeen(p, encode, values, children, url, glyphs, place);
    case Mention(name, _) => MentionIsSeen(encode, name, glyphs, place);
  }

  lemma MentionIsSeen(encode: string -> string, name: string, glyphs: seq<Glyph>, place: Place)
    requires IsEncoding(encode)
    ensures SeeAll(Between(glyphs, place), Element("strong", "strong", "@" + encode(name))) ==
      Between(glyphs + At("@" + encode(name), Within(place, "strong")), place)
  {
    var text, inside := "@" + encode(name), Within(place, "strong");
    EncodedIsSafe(encode, name);
    NameOfTag("strong", "");
    assert "strong" + "" == "strong";
    TextIsSeen(glyphs, inside, text);
    ElementIsSeen(glyphs, place, "strong", "strong", text, At(text, inside));
  }

  lemma {:induction false} StyledIsSeen(p: Platform, encode: string -> string, values: Values, children: seq<Node>,
      glyphs: seq<Glyph>, place: Place, name: string)
    requires IsEncoding(encode) && !p.white('<') && name in ["strong", "em"]
    ensures var inner := Inline(p, Html, encode, values, children);
      var silent := ShowsNothing(p, encode, values, children, place);
      SeeAll(Between(glyphs, place), if IsBlankText(p, inner) then inner else Element(name, name, inner)) ==
        Between(glyphs + Content(p, encode, values, children, if silent then place else Within(place, name)), place)
    decreases children, 2
  {
    hide SeeAll, Inline, Content, ShowsNothing, Element, IsBlankText;
    BlankIs(p, encode, values, children, place);
    ContentIsSeen(p, encode, values, children, glyphs, place);
    ContentIsSeen(p, encode, values, children, glyphs, Within(place, name));
    NameOfTag(name, "");
    assert name + "" == name;
    ElementIsSeen(glyphs, place, name, name, Inline(p, Html, encode, values, children),
      Content(p, encode, values, children, Within(place, name)));
  }

  lemma AnchorIs(encode: string -> string, target: string)
    requires IsEncoding(encode)
    ensures Tag("a", "href", encode(target)) == "a href=\"" + encode(target) + "\""
    ensures NoAngles(Tag("a", "href", encode(target))) && UpToSpace(Tag("a", "href", encode(target))) == "a"
  {
    EncodedIsSafe(encode, target);
    NameOfTag("a", " href=\"" + encode(target) + "\"");
  }

  lemma {:induction false} LinkIsSeen(p: Platform, encode: string -> string, values: Values, children: seq<Node>,
      url: seq<Node>, glyphs: seq<Glyph>, place: Place)
    requires IsEncoding(encode) && !p.white('<')
    ensures SeeAll(Between(glyphs, place), InlineNode(p, Html, encode, values, Link(children, url))) ==
      Between(glyphs + ContentOf(p, encode, values, Link(children, url), place), place)
    decreases children, 2
  {
    hide *;
    var target := Target(p, values, url);
    var silent := ShowsNothing(p, encode, values, children, place);
    var text := if silent then encode(target) else Inline(p, Html, encode, values, children);
    var tag := "a href=\"" + encode(target) + "\"";
    var inside := if IsLinkable(p, target) then Within(place, tag) else place;
    var shown := if silent then At(encode(target), inside) else Content(p, encode, values, children, inside);
    LinkInHtml(p, encode, values, children, url, place);
    ContentOfLink(p, encode, values, children, url, place);
    EncodedIsSeen(encode, target, glyphs, inside);
    ContentIsSeen(p, encode, values, children, glyphs, inside);
    if IsLinkable(p, target) {
      AnchorIsSeen(encode, target, text, glyphs, place, shown);
    }
  }

  lemma LinkInHtml(p: Platform, encode: string -> string, values: Values, children: seq<Node>, url: seq<Node>,
      place: Place)
    requires !p.white('<')
    ensures var target := Target(p, values, url);
      var text := if ShowsNothing(p, encode, values, children, place) then encode(target)
        else Inline(p, Html, encode, values, children);
      InlineNode(p, Html, encode, values, Link(children, url)) ==
        if IsLinkable(p, target) then Element(Tag("a", "href", encode(target)), "a", text) else text
  {
    RenderingIsWritten(p, Plain, encode, values, url);
    WebIs(p, Target(p, values, url));
    BlankIs(p, encode, values, children, place);
    hide Element, Tag, ShowsNothing, IsWeb, IsLinkable, IsBlankText;
  }

  lemma ContentOfLink(p: Platform, encode: string -> string, values: Values, children: seq<Node>, url: seq<Node>,
      place: Place)
    ensures var target := Target(p, values, url);
      var inside := if IsLinkable(p, target) then Within(place, "a href=\"" + encode(target) + "\"") else place;
      ContentOf(p, encode, values, Link(children, url), place) ==
        if ShowsNothing(p, encode, values, children, place) then At(encode(target), inside)
        else Content(p, encode, values, children, inside)
  {
  }

  lemma AnchorIsSeen(encode: string -> string, target: string, text: string, glyphs: seq<Glyph>, place: Place,
      shown: seq<Glyph>)
    requires IsEncoding(encode)
    requires var inside := Within(place, "a href=\"" + encode(target) + "\"");
      SeeAll(Between(glyphs, inside), text) == Between(glyphs + shown, inside)
    ensures SeeAll(Between(glyphs, place), Element(Tag("a", "href", encode(target)), "a", text)) ==
      Between(glyphs + shown, place)
  {
    AnchorIs(encode, target);
    hide SeeAll, Element, Tag, UpToSpace;
    ElementIsSeen(glyphs, place, "a href=\"" + encode(target) + "\"", "a", text, shown);
  }

  // ------------------------------------------------------------------ the page shows its lines

  /** The lists of a page: one for each run of items. */
  function Lists(lines: seq<Line>): nat {
    if lines == [] then 0
    else
      var last := |lines| - 1;
      Lists(lines[..last]) + if lines[last].item && (last == 0 || !lines[last - 1].item) then 1 else 0
  }

  function LineContent(p: Platform, encode: string -> string, values: Values, l: Line, line: nat, list: nat):
      seq<Glyph> {
    var place := Place(if l.item then [LIST, "li"] else [PARAGRAPH], line, list);
    if !l.item && ShowsNothing(p, encode, values, l.nodes, place) then []
    else Content(p, encode, values, l.nodes, place)
  }

  /** What the displayed lines show, in order: an item in its list, another line in a paragraph unless it is blank. */
  function PageContent(p: Platform, encode: string -> string, values: Values, lines: seq<Line>): seq<Glyph> {
    if lines == [] then []
    else
      PageContent(p, encode, values, lines[..|lines| - 1])
      + LineContent(p, encode, values, lines[|lines| - 1], |lines|, Lists(lines))
  }

  const TOP := Between([], Place([], 0, 0))

  function OpenLists(inList: bool): seq<string> {
    if inList then [LIST] else []
  }

  lemma StyledTag(name: string, value: string)
    requires ' ' !in name && NoAngles(name) && NoAngles(value)
    ensures NoAngles(Tag(name, "style", value)) && UpToSpace(Tag(name, "style", value)) == name
  {
    NameOfTag(name, " " + "style" + "=\"" + value + "\"");
  }

  lemma BlockTags()
    ensures NoAngles(LIST) && UpToSpace(LIST) == "ul" && LIST[0] == 'u'
    ensures NoAngles(PARAGRAPH) && UpToSpace(PARAGRAPH) == "p" && PARAGRAPH[0] == 'p'
    ensures NoAngles(GAP) && UpToSpace(GAP) == "div" && GAP[0] == 'd'
    ensures UpToSpace("li") == "li"
  {
    StylesAreSafe();
    {
      hide NoAngles, UpToSpace;
      assert NoAngles("ul") && NoAngles("p") && NoAngles("div") by { AreNames(); }
      StyledTag("ul", LIST_STYLE);
      StyledTag("p", PARAGRAPH_STYLE);
      StyledTag("div", GAP_STYLE);
    }
    NameOfTag("li", "");
    assert "li" + "" == "li";
  }

  lemma AreNames()
    ensures NoAngles("ul") && NoAngles("p") && NoAngles("div")
  {
  }

  lemma ToggleIsSeen(item: bool, inList: bool, glyphs: seq<Glyph>, line: nat, list: nat)
    ensures SeeAll(Between(glyphs, Place(OpenLists(inList), line, list)), Toggle(item, inList)) ==
      Between(glyphs, Place(OpenLists(item), line, list + if item && !inList then 1 else 0))
  {
    BlockTags();
    var place := Place(OpenLists(inList), line, list);
    if item && !inList {
      TagIsPassed(glyphs, place, LIST);
      assert [] + [LIST] == [LIST];
    } else if inList && !item {
      assert LIST_END == "<" + "/ul" + ">";
      TagIsPassed(glyphs, place, "/ul");
      assert [LIST][..0] == [];
    }
  }

  lemma ItemIsSeen(glyphs: seq<Glyph>, line: nat, list: nat, html: string, content: seq<Glyph>)
    requires var inside := Place([LIST, "li"], line + 1, list);
      SeeAll(Between(glyphs, inside), html) == Between(glyphs + content, inside)
    ensures SeeAll(Between(glyphs, Place([LIST], line, list)), Element("li", "li", html)) ==
      Between(glyphs + content, Place([LIST], line + 1, list))
  {
    BlockTags();
    assert [LIST] + ["li"] == [LIST, "li"];
    ElementIsSeen(glyphs, Place([LIST], line, list), "li", "li", html, content);
  }

  lemma ParagraphIsSeen(glyphs: seq<Glyph>, line: nat, list: nat, html: string, content: seq<Glyph>)
    requires var inside := Place([PARAGRAPH], line + 1, list);
      SeeAll(Between(glyphs, inside), html) == Between(glyphs + content, inside)
    ensures SeeAll(Between(glyphs, Place([], line, list)), Element(PARAGRAPH, "p", html)) ==
      Between(glyphs + content, Place([], line + 1, list))
    ensures SeeAll(Between(glyphs, Place([], line, list)), Element(GAP, "div", "")) ==
      Between(glyphs, Place([], line + 1, list))
  {
    BlockTags();
    assert [] + [PARAGRAPH] == [PARAGRAPH];
    ElementIsSeen(glyphs, Place([], line, list), PARAGRAPH, "p", html, content);
    assert glyphs + [] == glyphs;
    ElementIsSeen(glyphs, Place([], line, list), GAP, "div", "", []);
  }

  lemma BlockIsSeen(p: Platform, encode: string -> string, values: Values, l: Line, glyphs: seq<Glyph>, line: nat,
      list: nat)
    requires IsEncoding(encode) && !p.white('<')
    ensures SeeAll(Between(glyphs, Place(OpenLists(l.item), line, list)),
        LineBlock(p, l.item, Inline(p, Html, encode, values, l.nodes))) ==
      Between(glyphs + LineContent(p, encode, values, l, line + 1, list), Place(OpenLists(l.item), line + 1, list))
  {
    hide SeeAll, Inline, Content, ShowsNothing, IsBlankText, Element;
    var html := Inline(p, Html, encode, values, l.nodes);
    var inside := Place(if l.item then [LIST, "li"] else [PARAGRAPH], line + 1, list);
    var content := Content(p, encode, values, l.nodes, inside);
    ContentIsSeen(p, encode, values, l.nodes, glyphs, inside);
    BlankIs(p, encode, values, l.nodes, inside);
    if l.item {
      ItemIsSeen(glyphs, line, list, html, content);
    } else {
      ParagraphIsSeen(glyphs, line, list, html, content);
      assert glyphs + [] == glyphs;
    }
  }

  /** The page is seen as some glyphs, with so many lines and lists so far. */
  ghost predicate IsSeenAs(page: Page, glyphs: seq<Glyph>, line: nat, list: nat) {
    SeeAll(TOP, page.text) == Between(glyphs, Place(OpenLists(page.inList), line, list))
  }

  lemma LineIsSeen(p: Platform, encode: string -> string, values: Values, page: Page, l: Line, glyphs: seq<Glyph>,
      line: nat, list: nat)
    requires IsEncoding(encode) && !p.white('<') && IsSeenAs(page, glyphs, line, list)
    ensures var lists := list + if l.item && !page.inList then 1 else 0;
      IsSeenAs(AddLine(p, encode, values, page, l), glyphs + LineContent(p, encode, values, l, line + 1, lists),
        line + 1, lists)
  {
    var html, toggle := Inline(p, Html, encode, values, l.nodes), Toggle(l.item, page.inList);
    ToggleIsSeen(l.item, page.inList, glyphs, line, list);
    BlockIsSeen(p, encode, values, l, glyphs, line, list + if l.item && !page.inList then 1 else 0);
    SeeInTwo(TOP, page.text, toggle);
    SeeInTwo(TOP, page.text + toggle, LineBlock(p, l.item, html));
  }

  lemma NothingIsSeen()
    ensures IsSeenAs(Page("", false), [], 0, 0)
  {
  }

  lemma InListIs(p: Platform, encode: string -> string, values: Values, lines: seq<Line>)
    ensures PageOf(p, encode, values, lines).inList == (lines != [] && lines[|lines| - 1].item)
  {
  }

  lemma {:induction false} PageIsSeen(p: Platform, encode: string -> string, values: Values, lines: seq<Line>)
    requires IsEncoding(encode) && !p.white('<')
    ensures IsSeenAs(PageOf(p, encode, values, lines), PageContent(p, encode, values, lines), |lines|, Lists(lines))
  {
    NothingIsSeen();
    hide IsSeenAs, LineContent, IsEncoding, AddLine;
    if lines != [] {
      var front := lines[..|lines| - 1];
      InListIs(p, encode, values, front);
      PageIsSeen(p, encode, values, front);
      LineIsSeen(p, encode, values, PageOf(p, encode, values, front), lines[|lines| - 1],
        PageContent(p, encode, values, front), |front|, Lists(front));
    }
  }

  /** The HTML of a template shows the content of the displayed lines in order, each in its own item or paragraph. */
  lemma HtmlShowsContent(p: Platform, encode: string -> string, values: Values, lines: seq<Line>)
    requires IsEncoding(encode) && !p.white('<')
    ensures var shown := Displayed(p, values, lines);
      SeeAll(TOP, HtmlOf(p, encode, values, lines)) ==
        Between(PageContent(p, encode, values, shown), Place([], |shown|, Lists(shown)))
  {
    var shown := Displayed(p, values, lines);
    PageIsSeen(p, encode, values, shown);
    var page := PageOf(p, encode, values, shown);
    SeeInTwo(TOP, page.text, LIST_END);
    ToggleIsSeen(false, page.inList, PageContent(p, encode, values, shown), |shown|, Lists(shown));
  }
}
