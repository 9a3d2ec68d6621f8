/** The Telegram renderer and its reader (internal/transport/telegram format): Markdown's tree to the
    HTML subset Telegram shows, and back to plain text with entities. */
module Telegram {
  import opened Options
  import Text

  /** The Markdown tree. A code block's lines are its source lines; `Other` is the document and every
      node the renderer has no case for. */
  datatype Node =
    | Text(text: string, breaks: bool)
    | Str(text: string)
    | AutoLink(url: string)
    | CodeSpan(children: seq<Node>)
    | Emphasis(level: nat, children: seq<Node>)
    | Link(dest: string, children: seq<Node>)
    | Image(dest: string, children: seq<Node>)
    | Heading(children: seq<Node>)
    | Paragraph(children: seq<Node>)
    | TextBlock(children: seq<Node>)
    | CodeBlock(lines: seq<string>)
    | Blockquote(children: seq<Node>)
    | List(ordered: bool, start: nat, children: seq<Node>)
    | ListItem(children: seq<Node>)
    | ThematicBreak
    | RawHtml
    | Other(children: seq<Node>)

  datatype ListState = ListState(ordered: bool, item: nat)

  /** The library's notions of characters: what is space, and lower-casing. */
  datatype Chars = Chars(space: char -> bool, lower: string -> string)

  datatype Name = Bold | Italic | Anchor | Code | Pre | Quote

  function NameText(n: Name): string {
    match n
    case Bold => "b"
    case Italic => "i"
    case Anchor => "a"
    case Code => "code"
    case Pre => "pre"
    case Quote => "blockquote"
  }

  // ---------- Escaping ----------

  predicate Special(c: char) {
    c == '&' || c == '\'' || c == '<' || c == '>' || c == '"'
  }

  function EntityName(c: char): string
    requires Special(c)
  {
    if c == '&' then "amp" else if c == '\'' then "#39" else if c == '<' then "lt" else if c == '>' then "gt" else "#34"
  }

  function EscapeChar(c: char): string {
    if Special(c) then ['&'] + EntityName(c) + [';'] else [c]
  }

  /** html.EscapeString. */
  function Escape(s: string): string {
    if s == "" then "" else EscapeChar(s[0]) + Escape(s[1..])
  }

  /** The character an entity of the renderer's names. */
  function Named(name: string): Option<char> {
    if name == "amp" then Some('&')
    else if name == "#39" then Some('\'')
    else if name == "lt" then Some('<')
    else if name == "gt" then Some('>')
    else if name == "#34" then Some('"')
    else None
  }

  function Unescape(s: string): string
    decreases |s|
  {
    if s == "" then ""
    else if s[0] != '&' then [s[0]] + Unescape(s[1..])
    else
      var end := Text.Cut(s, ';');
      if end < |s| && Named(s[1..end]).Some? then [Named(s[1..end]).value] + Unescape(s[end + 1..])
      else [s[0]] + Unescape(s[1..])
  }

  // ---------- The renderer ----------

  function TagOpen(name: string): string {
    ['<'] + name + ['>']
  }

  function TagClose(name: string): string {
    ['<', '/'] + name + ['>']
  }

  const HREF := "href="

  function LinkOpen(href: string): string {
    ['<'] + NameText(Anchor) + [' '] + HREF + ['"'] + Escape(href) + ['"', '>']
  }

  const HTTP := "http://"
  const HTTPS := "https://"

  predicate IsWebUrl(chars: Chars, dest: string) {
    var d := chars.lower(Text.Trim(dest, chars.space));
    HTTP <= d || HTTPS <= d
  }

  /** What writeChildText writes, before escaping: the immediate text children. */
  function ChildText(children: seq<Node>): string {
    if children == [] then "" else (if children[0].Text? then children[0].text else "") + ChildText(children[1..])
  }

  function Joined(lines: seq<string>): string {
    if lines == [] then "" else lines[0] + Joined(lines[1..])
  }

  predicate SkipsChildren(n: Node) {
    n.AutoLink? || n.CodeSpan? || n.CodeBlock? || n.RawHtml?
  }

  function Children(n: Node): (r: seq<Node>)
    ensures forall i :: 0 <= i < |r| ==> r[i] < n
  {
    match n
    case Text(_, _) => []
    case Str(_) => []
    case AutoLink(_) => []
    case CodeSpan(_) => []
    case CodeBlock(_) => []
    case ThematicBreak => []
    case RawHtml => []
    case Emphasis(_, children) => children
    case Link(_, children) => children
    case Image(_, children) => children
    case Heading(children) => children
    case Paragraph(children) => children
    case TextBlock(children) => children
    case Blockquote(children) => children
    case List(_, _, children) => children
    case ListItem(children) => children
    case Other(children) => children
  }

  /** A list item stands in a list. */
  predicate WellFormed(n: Node, inList: bool)
    decreases n
  {
    && (n.ListItem? ==> inList)
    && forall i :: 0 <= i < |Children(n)| ==> WellFormed(Children(n)[i], inList || n.List?)
  }

  function EmphasisName(level: nat): string {
    NameText(if level >= 2 then Bold else Italic)
  }

  function Marker(ls: ListState): string {
    if ls.ordered then Text.Decimal(ls.item) + ['.', ' '] else ['\U{2022}', ' ']
  }

  function Counted(ls: ListState): ListState {
    if ls.ordered then ls.(item := ls.item + 1) else ls
  }

  function Top(lists: seq<ListState>): ListState
    requires lists != []
  {
    lists[|lists| - 1]
  }

  /** What the visitor writes when it enters a node, and the lists it is then in. */
  function Enter(chars: Chars, n: Node, lists: seq<ListState>): string
    requires n.ListItem? ==> lists != []
  {
    match n
    case Text(text, breaks) => Escape(text) + if breaks then ['\n'] else ""
    case Str(text) => Escape(text)
    case AutoLink(url) => LinkOpen(url) + Escape(url) + TagClose(NameText(Anchor))
    case CodeSpan(children) => TagOpen(NameText(Code)) + Escape(ChildText(children)) + TagClose(NameText(Code))
    case Emphasis(level, _) => TagOpen(EmphasisName(level))
    case Link(dest, _) => if IsWebUrl(chars, dest) then LinkOpen(dest) else ""
    case Image(dest, _) => if IsWebUrl(chars, dest) then LinkOpen(dest) else ""
    case Heading(_) => TagOpen(NameText(Bold))
    case CodeBlock(lines) => TagOpen(NameText(Pre)) + Escape(Joined(lines)) + TagClose(NameText(Pre)) + ['\n', '\n']
    case Blockquote(_) => TagOpen(NameText(Quote))
    case ListItem(_) => Marker(Top(lists))
    case ThematicBreak => ['\U{2014}', '\n']
    case _ => ""
  }

  function Entered(n: Node, lists: seq<ListState>): seq<ListState>
    requires n.ListItem? ==> lists != []
  {
    match n
    case List(ordered, start, _) => lists + [ListState(ordered, if start == 0 then 1 else start)]
    case ListItem(_) => lists[|lists| - 1 := Counted(Top(lists))]
    case _ => lists
  }

  /** What it writes when it leaves one, still in the node's own list. */
  function Exit(chars: Chars, n: Node, lists: seq<ListState>): string
    requires n.List? ==> lists != []
  {
    match n
    case Emphasis(level, _) => TagClose(EmphasisName(level))
    case Link(dest, _) => if IsWebUrl(chars, dest) then TagClose(NameText(Anchor)) else ""
    case Image(dest, _) => if IsWebUrl(chars, dest) then TagClose(NameText(Anchor)) else ""
    case Heading(_) => TagClose(NameText(Bold)) + ['\n', '\n']
    case Paragraph(_) => if lists != [] then ['\n'] else ['\n', '\n']
    case TextBlock(_) => ['\n']
    case Blockquote(_) => TagClose(NameText(Quote)) + ['\n']
    case List(_, _, _) => if |lists| == 1 then ['\n'] else ""
    case ListItem(_) => ['\n']
    case _ => ""
  }

  function Exited(n: Node, lists: seq<ListState>): seq<ListState>
    requires n.List? ==> lists != []
  {
    if n.List? then lists[..|lists| - 1] else lists
  }

  // ---------- What the walk writes ----------

  datatype Written = Written(html: string, lists: seq<ListState>)

  function Write(chars: Chars, n: Node, lists: seq<ListState>): (r: Written)
    requires WellFormed(n, lists != [])
    ensures |r.lists| == |lists|
    decreases n, 1
  {
    var inner := WriteAll(chars, n, Children(n), Entered(n, lists));
    Written(Enter(chars, n, lists) + inner.html + Exit(chars, n, inner.lists), Exited(n, inner.lists))
  }

  function WriteAll(chars: Chars, parent: Node, nodes: seq<Node>, lists: seq<ListState>): (r: Written)
    requires forall i :: 0 <= i < |nodes| ==> nodes[i] < parent && WellFormed(nodes[i], lists != [])
    ensures |r.lists| == |lists|
    decreases parent, 0, |nodes|
  {
    if nodes == [] then Written("", lists)
    else
      var front := WriteAll(chars, parent, nodes[..|nodes| - 1], lists);
      var last := Write(chars, nodes[|nodes| - 1], front.lists);
      Written(front.html + last.html, last.lists)
  }

  class HtmlRenderer {
    const chars: Chars
    var b: string
    var lists: seq<ListState>

    constructor (chars: Chars)
      ensures this.chars == chars && b == "" && lists == []
    {
      this.chars, b, lists := chars, "", [];
    }

    method WriteString(s: string)
      modifies `b
      ensures b == old(b) + s
    {
      b := b + s;
    }

    /** writeChildText: a code span's text children, escaped. */
    method WriteChildText(children: seq<Node>)
      modifies `b
      ensures b == old(b) + Escape(ChildText(children))
    {
      for i := 0 to |children|
        invariant b + Escape(ChildText(children[i..])) == old(b) + Escape(ChildText(children))
      {
        assert children[i..][1..] == children[i + 1..];
        ChildTextEscapes(children[i..], b);
        if children[i].Text? {
          b := b + Escape(children[i].text);
        }
      }
      assert b + "" == b;
    }

    /** writeLines: a code block's lines, escaped. */
    method WriteLines(lines: seq<string>)
      modifies `b
      ensures b == old(b) + Escape(Joined(lines))
    {
      for i := 0 to |lines|
        invariant b + Escape(Joined(lines[i..])) == old(b) + Escape(Joined(lines))
      {
        assert lines[i..][1..] == lines[i + 1..];
        EscapeInTurn(lines[i], Joined(lines[i + 1..]));
        b := b + Escape(lines[i]);
      }
      assert b + "" == b;
    }

    method WriteText(text: string, breaks: bool)
      modifies `b
      ensures b == old(b) + (Escape(text) + if breaks then ['\n'] else "")
    {
      WriteString(Escape(text));
      if breaks {
        WriteString(['\n']);
      }
    }

    method WriteAutoLink(url: string)
      modifies `b
      ensures b == old(b) + (LinkOpen(url) + Escape(url) + TagClose(NameText(Anchor)))
    {
      AfterAround(b, LinkOpen(url), Escape(url), TagClose(NameText(Anchor)));
      WriteString(LinkOpen(url));
      WriteString(Escape(url));
      WriteString(TagClose(NameText(Anchor)));
    }

    method WriteCodeSpan(children: seq<Node>)
      modifies `b
      ensures b == old(b) + (TagOpen(NameText(Code)) + Escape(ChildText(children)) + TagClose(NameText(Code)))
    {
      AfterAround(b, TagOpen(NameText(Code)), Escape(ChildText(children)), TagClose(NameText(Code)));
      WriteString(TagOpen(NameText(Code)));
      WriteChildText(children);
      WriteString(TagClose(NameText(Code)));
    }

    method WriteCodeBlock(lines: seq<string>)
      modifies `b
      ensures b == old(b) + (TagOpen(NameText(Pre)) + Escape(Joined(lines)) + TagClose(NameText(Pre)) + ['\n', '\n'])
    {
      WriteString(TagOpen(NameText(Pre)));
      WriteLines(lines);
      WriteString(TagClose(NameText(Pre)));
      WriteString(['\n', '\n']);
    }

    /** A list item's number, which the next item's follows, or its bullet. */
    method WriteMarker()
      requires lists != []
      modifies `b, `lists
      ensures b == old(b) + Marker(Top(old(lists))) && lists == old(lists)[|old(lists)| - 1 := Counted(Top(old(lists)))]
    {
      var ls := lists[|lists| - 1];
      if ls.ordered {
        WriteString(Text.Decimal(ls.item));
        WriteString(['.', ' ']);
        lists := lists[|lists| - 1 := ls.(item := ls.item + 1)];
      } else {
        WriteString(['\U{2022}', ' ']);
      }
    }

    /** render on the way in. */
    method RenderEntering(n: Node)
      requires n.ListItem? ==> lists != []
      modifies `b, `lists
      ensures b == old(b) + Enter(chars, n, old(lists)) && lists == Entered(n, old(lists))
    {
      match n
      case Text(text, breaks) => WriteText(text, breaks);
      case Str(text) => WriteString(Escape(text));
      case AutoLink(url) => WriteAutoLink(url);
      case CodeSpan(children) => WriteCodeSpan(children);
      case Emphasis(level, _) => WriteString(TagOpen(EmphasisName(level)));
      case Link(dest, _) =>
        if IsWebUrl(chars, dest) {
          WriteString(LinkOpen(dest));
        }
      case Image(dest, _) =>
        if IsWebUrl(chars, dest) {
          WriteString(LinkOpen(dest));
        }
      case Heading(_) => WriteString(TagOpen(NameText(Bold)));
      case CodeBlock(lines) => WriteCodeBlock(lines);
      case Blockquote(_) => WriteString(TagOpen(NameText(Quote)));
      case List(ordered, start, _) =>
        var first := start;
        if first == 0 {
          first := 1;
        }
        lists := lists + [ListState(ordered, first)];
      case ListItem(_) => WriteMarker();
      case ThematicBreak => WriteString(['\U{2014}', '\n']);
      case _ =>
    }

    /** render on the way out. */
    method RenderLeaving(n: Node)
      requires n.List? ==> lists != []
      modifies `b, `lists
      ensures b == old(b) + Exit(chars, n, old(lists)) && lists == Exited(n, old(lists))
    {
      match n
      case Emphasis(level, _) => WriteString(TagClose(EmphasisName(level)));
      case Link(dest, _) =>
        if IsWebUrl(chars, dest) {
          WriteString(TagClose(NameText(Anchor)));
        }
      case Image(dest, _) =>
        if IsWebUrl(chars, dest) {
          WriteString(TagClose(NameText(Anchor)));
        }
      case Heading(_) => WriteString(TagClose(NameText(Bold)) + ['\n', '\n']);
      case Paragraph(_) =>
        if |lists| > 0 {
          WriteString(['\n']);
        } else {
          WriteString(['\n', '\n']);
        }
      case TextBlock(_) => WriteString(['\n']);
      case Blockquote(_) => WriteString(TagClose(NameText(Quote)) + ['\n']);
      case List(_, _, _) =>
        lists := lists[..|lists| - 1];
        if |lists| == 0 {
          WriteString(['\n']);
        }
      case ListItem(_) => WriteString(['\n']);
      case _ =>
    }

    /** ast.Walk with render as its visitor. */
    method Walk(n: Node)
      requires WellFormed(n, lists != [])
      modifies `b, `lists
      ensures Written(b, lists) == After(old(b), Write(chars, n, old(lists)))
      decreases n, 1
    {
      ghost var enter := Enter(chars, n, lists);
      RenderEntering(n);
      ghost var inner := WriteAll(chars, n, Children(n), lists);
      WalkChildren(n, Children(n));
      ghost var exit := Exit(chars, n, lists);
      RenderLeaving(n);
      AfterAround(old(b), enter, inner.html, exit);
    }

    method WalkChildren(n: Node, children: seq<Node>)
      requires forall i :: 0 <= i < |children| ==> children[i] < n && WellFormed(children[i], lists != [])
      modifies `b, `lists
      ensures Written(b, lists) == After(old(b), WriteAll(chars, n, children, old(lists)))
      decreases n, 0
    {
      AfterNothing(b, lists);
      for i := 0 to |children|
        invariant |lists| == |old(lists)|
        invariant Written(b, lists) == After(old(b), WriteAll(chars, n, children[..i], old(lists)))
      {
        assert children[..i + 1][..i] == children[..i];
        ghost var front := WriteAll(chars, n, children[..i], old(lists));
        Walk(children[i]);
        AfterTwice(old(b), front.html, Write(chars, children[i], front.lists));
      }
      assert children[..|children|] == children;
    }
  }

  function After(b: string, w: Written): Written {
    w.(html := b + w.html)
  }

  lemma AfterNothing(b: string, lists: seq<ListState>)
    ensures After(b, Written("", lists)) == Written(b, lists)
  {
    assert b + "" == b;
  }

  lemma AfterAround(b: string, enter: string, inner: string, exit: string)
    ensures b + enter + inner + exit == b + (enter + inner + exit)
  {
  }

  lemma AfterTwice(b: string, front: string, w: Written)
    ensures After(b + front, w) == After(b, w.(html := front + w.html))
  {
    assert b + front + w.html == b + (front + w.html);
  }

  /** toTelegramHTML, given the parsed Markdown. */
  function Rendered(chars: Chars, doc: Node): string
    requires WellFormed(doc, false)
  {
    Text.Trim(Write(chars, doc, []).html, chars.space)
  }

  method ToTelegramHtml(chars: Chars, doc: Node) returns (html: string)
    requires WellFormed(doc, false)
    ensures html == Rendered(chars, doc)
  {
    var r := new HtmlRenderer(chars);
    r.Walk(doc);
    assert "" + Write(chars, doc, []).html == Write(chars, doc, []).html;
    html := Text.Trim(r.b, chars.space);
  }

  lemma {:induction false} EscapeInTurn(s: string, t: string)
    ensures Escape(s + t) == Escape(s) + Escape(t)
  {
    if s == "" {
      assert s + t == t;
    } else {
      assert (s + t)[1..] == s[1..] + t;
      EscapeInTurn(s[1..], t);
    }
  }

  lemma ChildTextEscapes(children: seq<Node>, b: string)
    requires children != []
    ensures b + Escape(ChildText(children)) ==
      b + (if children[0].Text? then Escape(children[0].text) else "") + Escape(ChildText(children[1..]))
  {
    var first := if children[0].Text? then children[0].text else "";
    EscapeInTurn(first, ChildText(children[1..]));
  }

  // ---------- The tokenizer, on the renderer's subset ----------

  datatype Token = TextToken(text: string) | StartTag(name: string, href: Option<string>) | EndTag(name: string)

  /** A carriage return reads as a newline, and one before a newline as nothing. */
  function Newlines(s: string): string {
    if s == "" then ""
    else if s[0] != '\r' then [s[0]] + Newlines(s[1..])
    else if |s| > 1 && s[1] == '\n' then Newlines(s[1..])
    else ['\n'] + Newlines(s[1..])
  }

  function Raw(s: string): string {
    Unescape(Newlines(s))
  }

  /** What stands between the quotes after the key, if the key is href. */
  function HrefIn(attrs: string): Option<string> {
    var quote := Text.Cut(attrs, '"');
    if attrs[..quote] == HREF && quote < |attrs| then
      var value := attrs[quote + 1..];
      Some(Raw(value[..Text.Cut(value, '"')]))
    else None
  }

  /** A tag by what stands between its angles. */
  function ReadTag(body: string): Token {
    if body != "" && body[0] == '/' then EndTag(body[1..])
    else
      var end := Text.Cut(body, ' ');
      StartTag(body[..end], if end < |body| then HrefIn(body[end + 1..]) else None)
  }

  function Tokenize(h: string): seq<Token>
    decreases |h|
  {
    if h == "" then []
    else if h[0] == '<' then
      var end := Text.Cut(h, '>');
      if end == |h| then [] else [ReadTag(h[1..end])] + Tokenize(h[end + 1..])
    else
      var end := Text.Cut(h, '<');
      [TextToken(Raw(h[..end]))] + Tokenize(h[end..])
  }

  // ---------- The reader ----------

  datatype EntityKind = CodeEntity | PreEntity

  datatype Entity = Entity(kind: EntityKind, offset: int, length: int)

  datatype OpenLink = OpenLink(href: string, from: nat)

  /** utf16.RuneLen of every character. */
  function Utf16(s: string): nat {
    if s == "" then 0 else (if s[0] < '\U{10000}' then 1 else 2) + Utf16(s[1..])
  }

  /** The reader between two tokens: the text so far and its length, the entities, where the open code
      or pre element began (-1 outside one) and its kind, and the open links. */
  datatype Reading = Reading(b: string, n: int, entities: seq<Entity>, start: int, kind: EntityKind, links: seq<OpenLink>)

  const START := Reading("", 0, [], -1, CodeEntity, [])

  function Wrote(r: Reading, t: string): Reading {
    r.(b := r.b + t, n := r.n + Utf16(t))
  }

  function KindOf(name: string): EntityKind {
    if name == NameText(Pre) then PreEntity else CodeEntity
  }

  predicate IsMono(name: string) {
    name == NameText(Code) || name == NameText(Pre)
  }

  function MonoOpened(r: Reading, name: string): Reading {
    if r.start < 0 then r.(start := r.n, kind := KindOf(name)) else r
  }

  function MonoClosed(r: Reading): Reading {
    r.(entities := if r.start >= 0 && r.n > r.start then r.entities + [Entity(r.kind, r.start, r.n - r.start)] else r.entities,
       start := -1)
  }

  function Address(href: string): string {
    [' ', '('] + href + [')']
  }

  function LinkClosed(r: Reading): Reading {
    if r.links == [] then r
    else
      var l := r.links[|r.links| - 1];
      var popped := r.(links := r.links[..|r.links| - 1]);
      if l.href != "" && l.from <= |r.b| && r.b[l.from..] != l.href then Wrote(popped, Address(l.href)) else popped
  }

  function Step(r: Reading, t: Token): Reading {
    match t
    case TextToken(text) => Wrote(r, text)
    case StartTag(name, href) =>
      if IsMono(name) then MonoOpened(r, name)
      else if name == NameText(Anchor) then r.(links := r.links + [OpenLink(href.GetOr(""), |r.b|)])
      else r
    case EndTag(name) =>
      if IsMono(name) then MonoClosed(r)
      else if name == NameText(Anchor) then LinkClosed(r)
      else r
  }

  function Run(r: Reading, ts: seq<Token>): Reading
    decreases |ts|
  {
    if ts == [] then r else Run(Step(r, ts[0]), ts[1..])
  }

  class HtmlReader {
    var b: string
    var n: int
    var entities: seq<Entity>
    var start: int
    var kind: EntityKind
    var links: seq<OpenLink>

    function State(): Reading
      reads this
    {
      Reading(b, n, entities, start, kind, links)
    }

    constructor ()
      ensures State() == START
    {
      b, n, entities, start, kind, links := "", 0, [], -1, CodeEntity, [];
    }

    method Write(t: string)
      modifies this
      ensures State() == Wrote(old(State()), t)
    {
      b := b + t;
      for i := 0 to |t|
        invariant b == old(b) + t && entities == old(entities) && start == old(start) && kind == old(kind) && links == old(links)
        invariant n + Utf16(t[i..]) == old(n) + Utf16(t)
      {
        assert t[i..][1..] == t[i + 1..];
        n := n + if t[i] < '\U{10000}' then 1 else 2;
      }
    }

    method Take(t: Token)
      modifies this
      ensures State() == Step(old(State()), t)
    {
      match t
      case TextToken(text) => Write(text);
      case StartTag(name, href) =>
        if IsMono(name) {
          if start < 0 {
            start, kind := n, KindOf(name);
          }
        } else if name == NameText(Anchor) {
          links := links + [OpenLink(href.GetOr(""), |b|)];
        }
      case EndTag(name) =>
        if IsMono(name) {
          if start >= 0 && n > start {
            entities := entities + [Entity(kind, start, n - start)];
          }
          start := -1;
        } else if name == NameText(Anchor) {
          CloseLink();
        }
    }

    method CloseLink()
      modifies this
      ensures State() == LinkClosed(old(State()))
    {
      if |links| > 0 {
        var l := links[|links| - 1];
        links := links[..|links| - 1];
        if l.href != "" && l.from <= |b| && b[l.from..] != l.href {
          Write(Address(l.href));
        }
      }
    }
  }

  /** plainFromHTML. */
  method PlainFromHtml(h: string) returns (text: string, entities: seq<Entity>)
    ensures text == Run(START, Tokenize(h)).b && entities == Run(START, Tokenize(h)).entities
  {
    var r := new HtmlReader();
    var ts := Tokenize(h);
    for i := 0 to |ts|
      invariant fresh(r) && Run(r.State(), ts[i..]) == Run(START, ts)
    {
      assert ts[i..][1..] == ts[i + 1..];
      r.Take(ts[i]);
    }
    text, entities := r.b, r.entities;
  }
}
