/** The renderer and its reader together (internal/transport/telegram format): what a Markdown tree
    means as plain text, and that rendering it and reading it back gives that. */
module TelegramLaws {
  import opened Options
  import opened Telegram
  import opened TelegramHtml
  import opened TelegramTokens
  import opened TelegramReader
  import Text

  // ---------- What a tree means ----------

  /** Styled text, list markers already in it. */
  datatype Rich =
    | End
    | Plain(text: string, rest: Rich)
    | Style(name: Name, inner: Rich, rest: Rich)
    | Linked(href: string, inner: Rich, rest: Rich)
    | Mono(name: Name, text: string, rest: Rich)

  function Cat(a: Rich, b: Rich): Rich {
    match a
    case End => b
    case Plain(text, rest) => Plain(text, Cat(rest, b))
    case Style(name, inner, rest) => Style(name, inner, Cat(rest, b))
    case Linked(href, inner, rest) => Linked(href, inner, Cat(rest, b))
    case Mono(name, text, rest) => Mono(name, text, Cat(rest, b))
  }

  function Text1(s: string): Rich {
    Plain(s, End)
  }

  /** One node, given what its children mean and the lists around it before and after its entry. */
  function Wrap(chars: Chars, n: Node, inner: Rich, lists: seq<ListState>, within: seq<ListState>): Rich
    requires n.ListItem? ==> lists != []
  {
    match n
    case Text(text, breaks) => Plain(text, if breaks then Text1(['\n']) else End)
    case Str(text) => Text1(text)
    case AutoLink(url) => Linked(url, Text1(url), End)
    case CodeSpan(children) => Mono(Code, ChildText(children), End)
    case Emphasis(level, _) => Style(if level >= 2 then Bold else Italic, inner, End)
    case Link(dest, _) => if IsWebUrl(chars, dest) then Linked(dest, inner, End) else inner
    case Image(dest, _) => if IsWebUrl(chars, dest) then Linked(dest, inner, End) else inner
    case Heading(_) => Style(Bold, inner, Text1(['\n', '\n']))
    case Paragraph(_) => Cat(inner, Text1(if within != [] then ['\n'] else ['\n', '\n']))
    case TextBlock(_) => Cat(inner, Text1(['\n']))
    case CodeBlock(lines) => Mono(Pre, Joined(lines), Text1(['\n', '\n']))
    case Blockquote(_) => Style(Quote, inner, Text1(['\n']))
    case List(_, _, _) => if |within| == 1 then Cat(inner, Text1(['\n'])) else inner
    case ListItem(_) => Plain(Marker(Top(lists)), Cat(inner, Text1(['\n'])))
    case ThematicBreak => Text1(['\U{2014}', '\n'])
    case RawHtml => End
    case Other(_) => inner
  }

  datatype Composed = Composed(rich: Rich, lists: seq<ListState>)

  function Compose(chars: Chars, n: Node, lists: seq<ListState>): (r: Composed)
    requires WellFormed(n, lists != [])
    ensures |r.lists| == |lists|
    decreases n, 1
  {
    var inner := ComposeAll(chars, n, Children(n), Entered(n, lists));
    Composed(Wrap(chars, n, inner.rich, lists, inner.lists), Exited(n, inner.lists))
  }

  function ComposeAll(chars: Chars, parent: Node, nodes: seq<Node>, lists: seq<ListState>): (r: Composed)
    requires forall i :: 0 <= i < |nodes| ==> nodes[i] < parent && WellFormed(nodes[i], lists != [])
    ensures |r.lists| == |lists|
    decreases parent, 0, |nodes|
  {
    if nodes == [] then Composed(End, lists)
    else
      var front := ComposeAll(chars, parent, nodes[..|nodes| - 1], lists);
      var last := Compose(chars, nodes[|nodes| - 1], front.lists);
      Composed(Cat(front.rich, last.rich), last.lists)
  }

  /** Plain text, with its code and pre contents marked. */
  datatype Meaning = Meaning(text: string, marks: seq<Entity>)

  function Join(a: Meaning, b: Meaning): Meaning {
    Meaning(a.text + b.text, a.marks + Shifted(b.marks, Utf16(a.text)))
  }

  /** A link keeps its address behind its text when the two differ. */
  function Addressed(href: string, m: Meaning): Meaning {
    if href != "" && m.text != href then m.(text := m.text + Address(href)) else m
  }

  function MonoMeaning(name: Name, text: string): Meaning {
    Meaning(text, if text == "" then [] else [Entity(if name == Pre then PreEntity else CodeEntity, 0, Utf16(text))])
  }

  function Denote(r: Rich): Meaning {
    match r
    case End => Meaning("", [])
    case Plain(text, rest) => Join(Meaning(text, []), Denote(rest))
    case Style(_, inner, rest) => Join(Denote(inner), Denote(rest))
    case Linked(href, inner, rest) => Join(Addressed(href, Denote(inner)), Denote(rest))
    case Mono(name, text, rest) => Join(MonoMeaning(name, text), Denote(rest))
  }

  // ---------- The renderer prints it ----------

  function StyleStart(name: Name): Token {
    StartTag(NameText(name), None)
  }

  function StyleEnd(name: Name): Token {
    EndTag(NameText(name))
  }

  function LinkStart(href: string): Token {
    StartTag(NameText(Anchor), Some(href))
  }

  function Pieces(r: Rich): seq<Token> {
    match r
    case End => []
    case Plain(text, rest) => [TextToken(text)] + Pieces(rest)
    case Style(name, inner, rest) => [StyleStart(name)] + Pieces(inner) + [StyleEnd(name)] + Pieces(rest)
    case Linked(href, inner, rest) => [LinkStart(href)] + Pieces(inner) + [StyleEnd(Anchor)] + Pieces(rest)
    case Mono(name, text, rest) => [StyleStart(name), TextToken(text), StyleEnd(name)] + Pieces(rest)
  }

  function Html(r: Rich): string {
    Print(Pieces(r))
  }

  lemma PrintOne(t: Token, rest: seq<Token>)
    ensures Print([t] + rest) == PrintToken(t) + Print(rest)
  {
    assert ([t] + rest)[1..] == rest;
  }

  lemma HtmlPlain(text: string, rest: Rich)
    ensures Html(Plain(text, rest)) == Escape(text) + Html(rest)
  {
    PrintOne(TextToken(text), Pieces(rest));
  }

  lemma PrintAround(open: Token, inner: seq<Token>, close: Token, rest: seq<Token>)
    ensures Print([open] + inner + [close] + rest) == PrintToken(open) + (Print(inner) + (PrintToken(close) + Print(rest)))
  {
    assert [open] + inner + [close] + rest == [open] + (inner + ([close] + rest));
    PrintOne(open, inner + ([close] + rest));
    PrintInTurn(inner, [close] + rest);
    PrintOne(close, rest);
  }

  lemma {:induction false} HtmlCat(a: Rich, b: Rich)
    ensures Html(Cat(a, b)) == Html(a) + Html(b)
  {
    PiecesCat(a, b);
    PrintInTurn(Pieces(a), Pieces(b));
  }

  lemma {:induction false} PiecesCat(a: Rich, b: Rich)
    ensures Pieces(Cat(a, b)) == Pieces(a) + Pieces(b)
  {
    match a
    case End =>
    case Plain(text, rest) =>
      PiecesCat(rest, b);
      Regrouped([TextToken(text)], Pieces(rest), Pieces(b));
    case Style(name, inner, rest) =>
      PiecesCat(rest, b);
      Regrouped([StyleStart(name)] + Pieces(inner) + [StyleEnd(name)], Pieces(rest), Pieces(b));
    case Linked(href, inner, rest) =>
      PiecesCat(rest, b);
      Regrouped([LinkStart(href)] + Pieces(inner) + [StyleEnd(Anchor)], Pieces(rest), Pieces(b));
    case Mono(name, text, rest) =>
      PiecesCat(rest, b);
      Regrouped([StyleStart(name), TextToken(text), StyleEnd(name)], Pieces(rest), Pieces(b));
  }

  lemma Regrouped(a: seq<Token>, b: seq<Token>, c: seq<Token>)
    ensures (a + b) + c == a + (b + c)
  {
  }

  lemma TagPrints(name: Name)
    ensures PrintToken(StyleStart(name)) == TagOpen(NameText(name)) && PrintToken(StyleEnd(name)) == TagClose(NameText(name))
  {
    assert ['<', '/'] + NameText(name) == ['<'] + (['/'] + NameText(name));
  }

  lemma LinkPrints(href: string)
    ensures PrintToken(LinkStart(href)) == LinkOpen(href)
  {
    var a := NameText(Anchor);
    assert ['"', '>'] == ['"'] + ['>'];
    assert ['<'] + (a + ([' '] + (HREF + (['"'] + (Escape(href) + ['"']))))) + ['>']
        == ['<'] + a + [' '] + HREF + ['"'] + Escape(href) + (['"'] + ['>']);
  }

  /** Line breaks, markers and bullets need no escape. */
  lemma {:induction false} PlainEscape(s: string)
    requires forall c :: c in s ==> !Special(c)
    ensures Escape(s) == s
  {
    if s != "" {
      PlainEscape(s[1..]);
    }
  }

  lemma {:induction false} DecimalIsPlain(n: nat)
    ensures forall c :: c in Text.Decimal(n) ==> '0' <= c <= '9'
  {
    if n >= 10 {
      DecimalIsPlain(n / 10);
    }
  }

  lemma MarkerIsPlain(ls: ListState)
    ensures Escape(Marker(ls)) == Marker(ls)
  {
    DecimalIsPlain(ls.item);
    PlainEscape(Marker(ls));
  }

  lemma HtmlText1(s: string)
    requires forall c :: c in s ==> !Special(c)
    ensures Html(Text1(s)) == s
  {
    HtmlPlain(s, End);
    PlainEscape(s);
    assert s + "" == s;
  }

  lemma HtmlStyle(name: Name, inner: Rich, rest: Rich)
    ensures Html(Style(name, inner, rest)) == TagOpen(NameText(name)) + Html(inner) + (TagClose(NameText(name)) + Html(rest))
  {
    PrintAround(StyleStart(name), Pieces(inner), StyleEnd(name), Pieces(rest));
    TagPrints(name);
    Regroup(TagOpen(NameText(name)), Html(inner), TagClose(NameText(name)) + Html(rest));
  }

  lemma HtmlLinked(href: string, inner: Rich, rest: Rich)
    ensures Html(Linked(href, inner, rest)) == LinkOpen(href) + Html(inner) + (TagClose(NameText(Anchor)) + Html(rest))
  {
    PrintAround(LinkStart(href), Pieces(inner), StyleEnd(Anchor), Pieces(rest));
    TagPrints(Anchor);
    LinkPrints(href);
    Regroup(LinkOpen(href), Html(inner), TagClose(NameText(Anchor)) + Html(rest));
  }

  lemma PrintSingle(text: string)
    ensures Print([TextToken(text)]) == Escape(text)
  {
    PrintOne(TextToken(text), []);
    assert [TextToken(text)] + [] == [TextToken(text)] && Escape(text) + "" == Escape(text);
  }

  lemma HtmlMono(name: Name, text: string, rest: Rich)
    ensures Html(Mono(name, text, rest)) == TagOpen(NameText(name)) + Escape(text) + (TagClose(NameText(name)) + Html(rest))
  {
    assert [StyleStart(name), TextToken(text), StyleEnd(name)] + Pieces(rest)
        == [StyleStart(name)] + [TextToken(text)] + [StyleEnd(name)] + Pieces(rest);
    PrintAround(StyleStart(name), [TextToken(text)], StyleEnd(name), Pieces(rest));
    PrintSingle(text);
    TagPrints(name);
    Regroup(TagOpen(NameText(name)), Escape(text), TagClose(NameText(name)) + Html(rest));
  }

  lemma NothingAround(s: string)
    ensures s + "" == s && "" + s == s && "" + s + "" == s
  {
  }

  lemma LeafPrints(chars: Chars, n: Node, lists: seq<ListState>)
    requires n.Text? || n.Str? || n.AutoLink? || n.CodeSpan? || n.CodeBlock? || n.ThematicBreak? || n.RawHtml?
    ensures Html(Wrap(chars, n, End, lists, lists)) == Enter(chars, n, lists)
  {
    NothingAround(Enter(chars, n, lists));
    match n
    case Text(text, breaks) =>
      HtmlPlain(text, if breaks then Text1(['\n']) else End);
      HtmlText1(['\n']);
    case Str(text) =>
      HtmlPlain(text, End);
    case AutoLink(url) =>
      HtmlLinked(url, Text1(url), End);
      HtmlPlain(url, End);
      NothingAround(Escape(url));
      NothingAround(TagClose(NameText(Anchor)));
    case CodeSpan(children) =>
      HtmlMono(Code, ChildText(children), End);
      NothingAround(TagClose(NameText(Code)));
    case CodeBlock(lines) =>
      HtmlMono(Pre, Joined(lines), Text1(['\n', '\n']));
      HtmlText1(['\n', '\n']);
      Regroup(TagOpen(NameText(Pre)) + Escape(Joined(lines)), TagClose(NameText(Pre)), ['\n', '\n']);
    case ThematicBreak => HtmlText1(['\U{2014}', '\n']);
    case RawHtml =>
  }

  lemma StyledPrints(chars: Chars, n: Node, inner: Rich, lists: seq<ListState>, within: seq<ListState>)
    requires n.Emphasis? || n.Heading? || n.Blockquote?
    ensures Html(Wrap(chars, n, inner, lists, within)) == Enter(chars, n, lists) + Html(inner) + Exit(chars, n, within)
  {
    match n
    case Emphasis(level, _) =>
      var name := if level >= 2 then Bold else Italic;
      HtmlStyle(name, inner, End);
      NothingAround(TagClose(NameText(name)));
    case Heading(_) =>
      HtmlStyle(Bold, inner, Text1(['\n', '\n']));
      HtmlText1(['\n', '\n']);
    case Blockquote(_) =>
      HtmlStyle(Quote, inner, Text1(['\n']));
      HtmlText1(['\n']);
  }

  lemma LinkedPrints(dest: string, inner: Rich)
    ensures Html(Linked(dest, inner, End)) == LinkOpen(dest) + Html(inner) + TagClose(NameText(Anchor))
  {
    HtmlLinked(dest, inner, End);
    NothingAround(TagClose(NameText(Anchor)));
  }

  /** Flowing text with a break behind it. */
  lemma BrokenPrints(inner: Rich, break': string)
    requires forall c :: c in break' ==> !Special(c)
    ensures Html(Cat(inner, Text1(break'))) == "" + Html(inner) + break'
  {
    HtmlText1(break');
    HtmlCat(inner, Text1(break'));
    NothingAround(Html(inner));
  }

  lemma ItemPrints(marker: string, inner: Rich, break': string)
    requires Escape(marker) == marker && forall c :: c in break' ==> !Special(c)
    ensures Html(Plain(marker, Cat(inner, Text1(break')))) == marker + Html(inner) + break'
  {
    HtmlPlain(marker, Cat(inner, Text1(break')));
    HtmlText1(break');
    HtmlCat(inner, Text1(break'));
    Regroup(marker, Html(inner), break');
  }

  lemma FlowPrints(chars: Chars, n: Node, inner: Rich, lists: seq<ListState>, within: seq<ListState>)
    requires n.Paragraph? || n.TextBlock? || n.List? || n.ListItem? || n.Other?
    requires (n.ListItem? ==> lists != []) && (n.List? ==> within != [])
    ensures Html(Wrap(chars, n, inner, lists, within)) == Enter(chars, n, lists) + Html(inner) + Exit(chars, n, within)
  {
    NothingAround(Html(inner));
    if n.ListItem? {
      MarkerIsPlain(Top(lists));
      ItemPrints(Marker(Top(lists)), inner, ['\n']);
    } else if n.Paragraph? && within == [] {
      BrokenPrints(inner, ['\n', '\n']);
    } else if n.Paragraph? || n.TextBlock? || (n.List? && |within| == 1) {
      BrokenPrints(inner, ['\n']);
    }
  }

  lemma WrapPrints(chars: Chars, n: Node, inner: Rich, lists: seq<ListState>, within: seq<ListState>)
    requires (n.ListItem? ==> lists != []) && (n.List? ==> within != [])
    requires Children(n) == [] && (SkipsChildren(n) || n.Text? || n.Str? || n.ThematicBreak?) ==> inner == End
    ensures Html(Wrap(chars, n, inner, lists, within)) == Enter(chars, n, lists) + Html(inner) + Exit(chars, n, within)
  {
    if n.Text? || n.Str? || n.AutoLink? || n.CodeSpan? || n.CodeBlock? || n.ThematicBreak? || n.RawHtml? {
      LeafPrints(chars, n, lists);
      NothingAround(Enter(chars, n, lists));
    } else if n.Emphasis? || n.Heading? || n.Blockquote? {
      StyledPrints(chars, n, inner, lists, within);
    } else if n.Link? || n.Image? {
      LinkedPrints(n.dest, inner);
      NothingAround(Html(inner));
    } else {
      FlowPrints(chars, n, inner, lists, within);
    }
  }

  /** The renderer writes exactly the composed text, tagged and escaped. */
  lemma {:induction false} WriteIsComposed(chars: Chars, n: Node, lists: seq<ListState>)
    requires WellFormed(n, lists != [])
    ensures var c := Compose(chars, n, lists);
      Write(chars, n, lists) == Written(Html(c.rich), c.lists)
    decreases n, 1
  {
    var inner := ComposeAll(chars, n, Children(n), Entered(n, lists));
    AllIsComposed(chars, n, Children(n), Entered(n, lists));
    WrapPrints(chars, n, inner.rich, lists, inner.lists);
  }

  lemma {:induction false} AllIsComposed(chars: Chars, parent: Node, nodes: seq<Node>, lists: seq<ListState>)
    requires forall i :: 0 <= i < |nodes| ==> nodes[i] < parent && WellFormed(nodes[i], lists != [])
    ensures var c := ComposeAll(chars, parent, nodes, lists);
      WriteAll(chars, parent, nodes, lists) == Written(Html(c.rich), c.lists)
    decreases parent, 0, |nodes|
  {
    if nodes != [] {
      var last := |nodes| - 1;
      AllIsComposed(chars, parent, nodes[..last], lists);
      var front := ComposeAll(chars, parent, nodes[..last], lists);
      WriteIsComposed(chars, nodes[last], front.lists);
      HtmlCat(front.rich, Compose(chars, nodes[last], front.lists).rich);
    }
  }

  // ---------- The reader undoes it ----------

  /** Only the renderer's own styles, and no carriage return. */
  ghost predicate Proper(r: Rich) {
    match r
    case End => true
    case Plain(text, rest) => '\r' !in text && Proper(rest)
    case Style(name, inner, rest) => name in {Bold, Italic, Quote} && Proper(inner) && Proper(rest)
    case Linked(href, inner, rest) => '\r' !in href && Proper(inner) && Proper(rest)
    case Mono(name, text, rest) => name in {Code, Pre} && '\r' !in text && Proper(rest)
  }

  /** Reading went from `r` to `r'` and read just `m`. */
  ghost predicate Reads(r: Reading, r': Reading, m: Meaning) {
    && r'.b == r.b + m.text && r'.n == r.n + Utf16(m.text) && r'.entities == r.entities + Shifted(m.marks, r.n)
    && r'.start == r.start == -1 && r'.links == r.links
  }

  lemma ReadsInTurn(r: Reading, s: Reading, t: Reading, a: Meaning, b: Meaning)
    requires Reads(r, s, a) && Reads(s, t, b)
    ensures Reads(r, t, Join(a, b))
  {
    Utf16InTurn(a.text, b.text);
    Regroup(r.b, a.text, b.text);
    assert Shifted(a.marks + Shifted(b.marks, Utf16(a.text)), r.n) == Shifted(a.marks, r.n) + Shifted(b.marks, s.n);
  }

  lemma StyleReads(r: Reading, name: Name)
    requires name in {Bold, Italic, Quote}
    ensures Step(r, StyleStart(name)) == r && Step(r, StyleEnd(name)) == r
  {
    NameLaws(name);
  }

  lemma TextReads(r: Reading, text: string)
    requires r.start == -1
    ensures Reads(r, Step(r, TextToken(text)), Meaning(text, []))
  {
    assert r.entities + [] == r.entities;
  }

  lemma {:induction false} Utf16Counts(s: string)
    ensures Utf16(s) > 0 <==> s != ""
  {
  }

  lemma MonoReads(r: Reading, name: Name, text: string)
    requires name in {Code, Pre} && r.start == -1 && r.n >= 0
    ensures Reads(r, Step(Step(Step(r, StyleStart(name)), TextToken(text)), StyleEnd(name)), MonoMeaning(name, text))
  {
    NameLaws(name);
    Utf16Counts(text);
    assert r.entities + [] == r.entities;
  }

  lemma LinkReads(r: Reading, opened': Reading, inside: Reading, href: string, m: Meaning)
    requires opened' == Step(r, LinkStart(href)) && Reads(opened', inside, m)
    ensures Reads(r, Step(inside, StyleEnd(Anchor)), Addressed(href, m))
  {
    NameLaws(Anchor);
    var l := OpenLink(href, |r.b|);
    assert opened' == r.(links := r.links + [l]);
    assert inside.links[..|inside.links| - 1] == r.links && inside.b[|r.b|..] == m.text;
    Utf16InTurn(m.text, Address(href));
    Regroup(r.b, m.text, Address(href));
  }

  lemma RunFirst(r: Reading, t: Token, rest: seq<Token>)
    ensures Run(r, [t] + rest) == Run(Step(r, t), rest)
  {
    assert ([t] + rest)[1..] == rest;
  }

  lemma RunAround(r: Reading, open: Token, inner: seq<Token>, close: Token, rest: seq<Token>)
    ensures Run(r, [open] + inner + [close] + rest) == Run(Step(Run(Step(r, open), inner), close), rest)
  {
    assert [open] + inner + [close] + rest == [open] + (inner + ([close] + rest));
    RunFirst(r, open, inner + ([close] + rest));
    RunInTurn(Step(r, open), inner, [close] + rest);
    RunFirst(Run(Step(r, open), inner), close, rest);
  }

  /** Reading the pieces of a text reads its meaning, wherever it stands. */
  lemma {:induction false} PiecesRead(r: Reading, rich: Rich)
    requires Proper(rich) && r.start == -1 && r.n >= 0
    ensures Reads(r, Run(r, Pieces(rich)), Denote(rich))
    decreases rich
  {
    match rich
    case End =>
      assert r.b + "" == r.b && r.entities + [] == r.entities;
    case Plain(text, rest) =>
      var s := Step(r, TextToken(text));
      TextReads(r, text);
      RunFirst(r, TextToken(text), Pieces(rest));
      PiecesRead(s, rest);
      ReadsInTurn(r, s, Run(s, Pieces(rest)), Meaning(text, []), Denote(rest));
    case Style(name, inner, rest) =>
      var s := Run(r, Pieces(inner));
      StyleReads(r, name);
      StyleReads(s, name);
      RunAround(r, StyleStart(name), Pieces(inner), StyleEnd(name), Pieces(rest));
      PiecesRead(r, inner);
      PiecesRead(s, rest);
      ReadsInTurn(r, s, Run(s, Pieces(rest)), Denote(inner), Denote(rest));
    case Linked(href, inner, rest) =>
      var opened', inside := Step(r, LinkStart(href)), Run(Step(r, LinkStart(href)), Pieces(inner));
      var s := Step(inside, StyleEnd(Anchor));
      NameLaws(Anchor);
      RunAround(r, LinkStart(href), Pieces(inner), StyleEnd(Anchor), Pieces(rest));
      PiecesRead(opened', inner);
      LinkReads(r, opened', inside, href, Denote(inner));
      PiecesRead(s, rest);
      ReadsInTurn(r, s, Run(s, Pieces(rest)), Addressed(href, Denote(inner)), Denote(rest));
    case Mono(name, text, rest) =>
      var s := Step(Step(Step(r, StyleStart(name)), TextToken(text)), StyleEnd(name));
      MonoReads(r, name, text);
      assert Pieces(rich) == [StyleStart(name)] + ([TextToken(text)] + ([StyleEnd(name)] + Pieces(rest)));
      RunFirst(r, StyleStart(name), [TextToken(text)] + ([StyleEnd(name)] + Pieces(rest)));
      RunFirst(Step(r, StyleStart(name)), TextToken(text), [StyleEnd(name)] + Pieces(rest));
      RunFirst(Step(Step(r, StyleStart(name)), TextToken(text)), StyleEnd(name), Pieces(rest));
      PiecesRead(s, rest);
      ReadsInTurn(r, s, Run(s, Pieces(rest)), MonoMeaning(name, text), Denote(rest));
  }

  // ---------- Balance ----------

  /** The open tags after a stream, or None when it closes one that is not the last opened. */
  function Nest(stack: seq<string>, ts: seq<Token>): Option<seq<string>>
    decreases |ts|
  {
    if ts == [] then Some(stack)
    else
      match ts[0]
      case TextToken(_) => Nest(stack, ts[1..])
      case StartTag(name, _) => Nest(stack + [name], ts[1..])
      case EndTag(name) =>
        if stack != [] && stack[|stack| - 1] == name then Nest(stack[..|stack| - 1], ts[1..]) else None
  }

  lemma {:induction false} NestInTurn(stack: seq<string>, a: seq<Token>, b: seq<Token>)
    ensures Nest(stack, a + b) == if Nest(stack, a).Some? then Nest(Nest(stack, a).value, b) else None
    decreases |a|
  {
    if a == [] {
      assert a + b == b;
    } else {
      assert (a + b)[1..] == a[1..] + b;
      match a[0]
      case TextToken(_) => NestInTurn(stack, a[1..], b);
      case StartTag(name, _) => NestInTurn(stack + [name], a[1..], b);
      case EndTag(name) =>
        if stack != [] && stack[|stack| - 1] == name {
          NestInTurn(stack[..|stack| - 1], a[1..], b);
        }
    }
  }

  lemma NestAround(stack: seq<string>, open: Token, inner: seq<Token>, close: Token, rest: seq<Token>)
    requires open.StartTag? && close == EndTag(open.name) && Nest(stack + [open.name], inner) == Some(stack + [open.name])
    ensures Nest(stack, [open] + inner + [close] + rest) == Nest(stack, rest)
  {
    var name := open.name;
    assert [open] + inner + [close] + rest == [open] + (inner + ([close] + rest));
    assert ([open] + (inner + ([close] + rest)))[1..] == inner + ([close] + rest);
    NestInTurn(stack + [name], inner, [close] + rest);
    assert ([close] + rest)[1..] == rest && (stack + [name])[..|stack|] == stack;
  }

  lemma {:induction false} PiecesNest(stack: seq<string>, rich: Rich)
    ensures Nest(stack, Pieces(rich)) == Some(stack)
    decreases rich
  {
    match rich
    case End =>
    case Plain(text, rest) =>
      PiecesNest(stack, rest);
      assert ([TextToken(text)] + Pieces(rest))[1..] == Pieces(rest);
    case Style(name, inner, rest) =>
      PiecesNest(stack + [NameText(name)], inner);
      PiecesNest(stack, rest);
      NestAround(stack, StyleStart(name), Pieces(inner), StyleEnd(name), Pieces(rest));
    case Linked(href, inner, rest) =>
      PiecesNest(stack + [NameText(Anchor)], inner);
      PiecesNest(stack, rest);
      NestAround(stack, LinkStart(href), Pieces(inner), StyleEnd(Anchor), Pieces(rest));
    case Mono(name, text, rest) =>
      PiecesNest(stack, rest);
      assert Pieces(rich) == [StyleStart(name)] + [TextToken(text)] + [StyleEnd(name)] + Pieces(rest);
      assert [TextToken(text)][1..] == [];
      NestAround(stack, StyleStart(name), [TextToken(text)], StyleEnd(name), Pieces(rest));
  }

  /** Texts do not matter to nesting, so neither does merging or trimming them. */
  lemma NestTexts(stack: seq<string>, s: string, rest: seq<Token>)
    ensures Nest(stack, TextTokens(s) + rest) == Nest(stack, rest)
  {
    NestInTurn(stack, TextTokens(s), rest);
    assert s != "" ==> TextTokens(s)[1..] == [];
  }

  lemma {:induction false} NestSegs(stack: seq<string>, a: seq<Seg>, b: seq<Seg>)
    requires |a| == |b| && forall i :: 0 <= i < |a| ==> ReadBack(a[i].tag) == ReadBack(b[i].tag)
    ensures Nest(stack, SegTokens(a)) == Nest(stack, SegTokens(b))
    decreases |a|
  {
    if a != [] {
      var tag := ReadBack(a[0].tag);
      assert tag == ReadBack(b[0].tag);
      assert SegTokens(a)[1..] == TextTokens(a[0].text) + SegTokens(a[1..]);
      assert SegTokens(b)[1..] == TextTokens(b[0].text) + SegTokens(b[1..]);
      var next := if tag.StartTag? then stack + [tag.name] else if tag.EndTag? && stack != [] then stack[..|stack| - 1] else stack;
      NestTexts(next, a[0].text, SegTokens(a[1..]));
      NestTexts(next, b[0].text, SegTokens(b[1..]));
      NestSegs(next, a[1..], b[1..]);
    }
  }

  lemma {:induction false} NestNormal(stack: seq<string>, ts: seq<Token>)
    ensures Nest(stack, HtmlTokens(Normal(ts))) == Nest(stack, ts)
    decreases |ts|
  {
    if ts != [] {
      var rest := Normal(ts[1..]);
      NestTexts(stack, Normal(ts).lead, SegTokens(Normal(ts).segs));
      if ts[0].TextToken? {
        NestNormal(stack, ts[1..]);
        NestTexts(stack, rest.lead, SegTokens(rest.segs));
      } else {
        var segs := [Seg(ts[0], rest.lead)] + rest.segs;
        assert segs[1..] == rest.segs && SegTokens(segs)[1..] == HtmlTokens(rest);
        var next := if ts[0].StartTag? then stack + [ts[0].name] else if stack != [] then stack[..|stack| - 1] else stack;
        NestNormal(next, ts[1..]);
      }
    }
  }

  lemma ReadNests(x: TelegramTokens.Html)
    ensures Nest([], HtmlTokens(ReadHtml(x))) == Nest([], HtmlTokens(x))
  {
    NestTexts([], x.lead, SegTokens(x.segs));
    NestTexts([], Newlines(x.lead), SegTokens(ReadSegs(x.segs)));
    forall i | 0 <= i < |x.segs| ensures ReadBack(ReadSegs(x.segs)[i].tag) == ReadBack(x.segs[i].tag) {
      if x.segs[i].tag.StartTag? && x.segs[i].tag.href.Some? {
        NewlinesAreRead(x.segs[i].tag.href.value);
      }
    }
    NestSegs([], x.segs, ReadSegs(x.segs));
  }

  lemma {:induction false} NewlinesAreRead(s: string)
    ensures '\r' !in Newlines(s) && Newlines(Newlines(s)) == Newlines(s)
  {
    if s != "" {
      NewlinesAreRead(s[1..]);
    }
    NewlinesKept(Newlines(s));
  }

  lemma TrimmedNests(x: Html, space: char -> bool)
    ensures Nest([], HtmlTokens(Trimmed(x, space))) == Nest([], HtmlTokens(x))
  {
    NestTexts([], x.lead, SegTokens(x.segs));
    NestTexts([], Trimmed(x, space).lead, SegTokens(Trimmed(x, space).segs));
    NestSegs([], x.segs, Trimmed(x, space).segs);
  }

  // ---------- The whole round ----------

  ghost predicate NoReturns(n: Node)
    decreases n
  {
    && (match n
        case Text(text, _) => '\r' !in text
        case Str(text) => '\r' !in text
        case AutoLink(url) => '\r' !in url
        case CodeSpan(children) => '\r' !in ChildText(children)
        case Link(dest, _) => '\r' !in dest
        case Image(dest, _) => '\r' !in dest
        case CodeBlock(lines) => '\r' !in Joined(lines)
        case _ => true)
    && forall i :: 0 <= i < |Children(n)| ==> NoReturns(Children(n)[i])
  }

  lemma {:induction false} CatIsProper(a: Rich, b: Rich)
    requires Proper(a) && Proper(b)
    ensures Proper(Cat(a, b))
  {
    match a
    case End =>
    case Plain(text, rest) => CatIsProper(rest, b);
    case Style(name, inner, rest) => CatIsProper(rest, b);
    case Linked(href, inner, rest) => CatIsProper(rest, b);
    case Mono(name, text, rest) => CatIsProper(rest, b);
  }

  lemma WrapIsProper(chars: Chars, n: Node, inner: Rich, lists: seq<ListState>, within: seq<ListState>)
    requires (n.ListItem? ==> lists != []) && NoReturns(n) && Proper(inner)
    ensures Proper(Wrap(chars, n, inner, lists, within))
  {
    CatIsProper(inner, Text1(['\n']));
    CatIsProper(inner, Text1(['\n', '\n']));
    if n.ListItem? {
      DecimalIsPlain(Top(lists).item);
    }
  }

  lemma {:induction false} ComposeIsProper(chars: Chars, n: Node, lists: seq<ListState>)
    requires WellFormed(n, lists != []) && NoReturns(n)
    ensures Proper(Compose(chars, n, lists).rich)
    decreases n, 1
  {
    var inner := ComposeAll(chars, n, Children(n), Entered(n, lists));
    ComposeAllIsProper(chars, n, Children(n), Entered(n, lists));
    WrapIsProper(chars, n, inner.rich, lists, inner.lists);
  }

  lemma {:induction false} ComposeAllIsProper(chars: Chars, parent: Node, nodes: seq<Node>, lists: seq<ListState>)
    requires forall i :: 0 <= i < |nodes| ==> nodes[i] < parent && WellFormed(nodes[i], lists != []) && NoReturns(nodes[i])
    ensures Proper(ComposeAll(chars, parent, nodes, lists).rich)
    decreases parent, 0, |nodes|
  {
    if nodes != [] {
      var last := |nodes| - 1;
      ComposeAllIsProper(chars, parent, nodes[..last], lists);
      var front := ComposeAll(chars, parent, nodes[..last], lists);
      ComposeIsProper(chars, nodes[last], front.lists);
      CatIsProper(front.rich, Compose(chars, nodes[last], front.lists).rich);
    }
  }

  lemma TidyMore(a: seq<Token>, b: seq<Token>, strict: bool)
    requires AllTidy(a, strict) && AllTidy(b, strict)
    ensures AllTidy(a + b, strict)
  {
  }

  lemma {:induction false} PiecesAreTidy(rich: Rich, strict: bool)
    requires strict ==> Proper(rich)
    ensures AllTidy(Pieces(rich), strict)
    decreases rich
  {
    match rich
    case End =>
    case Plain(text, rest) =>
      PiecesAreTidy(rest, strict);
      TidyMore([TextToken(text)], Pieces(rest), strict);
    case Style(name, inner, rest) =>
      NameLaws(name);
      PiecesAreTidy(inner, strict);
      PiecesAreTidy(rest, strict);
      TidyMore([StyleStart(name)], Pieces(inner), strict);
      TidyMore([StyleStart(name)] + Pieces(inner), [StyleEnd(name)], strict);
      TidyMore([StyleStart(name)] + Pieces(inner) + [StyleEnd(name)], Pieces(rest), strict);
    case Linked(href, inner, rest) =>
      NameLaws(Anchor);
      PiecesAreTidy(inner, strict);
      PiecesAreTidy(rest, strict);
      TidyMore([LinkStart(href)], Pieces(inner), strict);
      TidyMore([LinkStart(href)] + Pieces(inner), [StyleEnd(Anchor)], strict);
      TidyMore([LinkStart(href)] + Pieces(inner) + [StyleEnd(Anchor)], Pieces(rest), strict);
    case Mono(name, text, rest) =>
      NameLaws(name);
      PiecesAreTidy(rest, strict);
      TidyMore([StyleStart(name), TextToken(text), StyleEnd(name)], Pieces(rest), strict);
  }

  function MeaningOf(chars: Chars, doc: Node): Meaning
    requires WellFormed(doc, false)
  {
    Denote(Compose(chars, doc, []).rich)
  }

  /** What the tokenizer finds in a rendered tree. */
  lemma RenderedTokens(chars: Chars, doc: Node, strict: bool) returns (x: TelegramTokens.Html)
    requires WellFormed(doc, false) && (strict ==> NoReturns(doc)) && SpaceLaws(chars.space)
    ensures x == Trimmed(Normal(Pieces(Compose(chars, doc, []).rich)), chars.space) && TidyHtml(x, strict)
    ensures Tokenize(Rendered(chars, doc)) == HtmlTokens(ReadHtml(x))
  {
    var rich := Compose(chars, doc, []).rich;
    var pieces := Pieces(rich);
    var normal := Normal(pieces);
    x := Trimmed(normal, chars.space);
    if strict {
      ComposeIsProper(chars, doc, []);
    }
    PiecesAreTidy(rich, strict);
    WriteIsComposed(chars, doc, []);
    PrintNormal(pieces);
    NormalIsTidy(pieces, strict);
    TidyIsTagged(normal, strict);
    TrimmedIsTidy(normal, chars.space, strict);
    TidyIsTagged(x, strict);
    TrimPrints(normal, chars.space);
    HtmlTokenizes(x);
  }

  lemma TrimmedSegIsTidy(seg: Seg, space: char -> bool, strict: bool)
    requires TidySeg(seg, strict)
    ensures TidySeg(Seg(seg.tag, Text.TrimRight(seg.text, space)), strict)
  {
    if strict {
      Text.TrimmedIsPart(seg.text, space, '\r');
    }
  }

  lemma TrimmedIsTidy(x: TelegramTokens.Html, space: char -> bool, strict: bool)
    requires TidyHtml(x, strict)
    ensures TidyHtml(Trimmed(x, space), strict)
  {
    if strict {
      Text.TrimmedIsPart(x.lead, space, '\r');
    }
    if x.segs != [] {
      TrimmedSegIsTidy(x.segs[|x.segs| - 1], space, strict);
      TidyLast(x.segs, Seg(x.segs[|x.segs| - 1].tag, Text.TrimRight(x.segs[|x.segs| - 1].text, space)), strict);
    }
  }

  lemma TidyLast(segs: seq<Seg>, last: Seg, strict: bool)
    requires TidySegs(segs, strict) && segs != [] && TidySeg(last, strict)
    ensures TidySegs(segs[..|segs| - 1] + [last], strict)
  {
  }

  lemma TidyIsTagged(x: TelegramTokens.Html, strict: bool)
    requires TidyHtml(x, strict)
    ensures AllTags(x.segs) && TidyHtml(x, false)
  {
    forall i | 0 <= i < |x.segs| ensures !x.segs[i].tag.TextToken? && TidySeg(x.segs[i], false) {
      assert TidySeg(x.segs[i], strict);
    }
  }

  /** The rendered string's tags are balanced. */
  lemma RenderedIsBalanced(chars: Chars, doc: Node)
    requires WellFormed(doc, false) && SpaceLaws(chars.space)
    ensures Nest([], Tokenize(Rendered(chars, doc))) == Some([])
  {
    var x := RenderedTokens(chars, doc, false);
    var pieces := Pieces(Compose(chars, doc, []).rich);
    ReadNests(x);
    TrimmedNests(Normal(pieces), chars.space);
    NestNormal([], pieces);
    PiecesNest([], Compose(chars, doc, []).rich);
  }

  /** Rendering a tree and reading it back gives the tree's meaning, but for space at its outer ends:
      the text with each link's address behind it, and an entity for each code and pre content that is
      not empty, moved by what was trimmed in front, disjoint and within the text. */
  lemma RenderThenRead(chars: Chars, doc: Node) returns (p: string, q: string)
    requires WellFormed(doc, false) && NoReturns(doc) && SpaceLaws(chars.space)
    ensures var out, m := Run(START, Tokenize(Rendered(chars, doc))), MeaningOf(chars, doc);
      && m.text == p + out.b + q && AllSpace(p, chars.space) && AllSpace(q, chars.space)
      && m.marks == Shifted(out.entities, Utf16(p))
      && Apart(out.entities, Utf16(out.b))
  {
    var x := RenderedTokens(chars, doc, true);
    var rich := Compose(chars, doc, []).rich;
    var pieces := Pieces(rich);
    ReadsAsItself(x);
    ComposeIsProper(chars, doc, []);
    PiecesRead(START, rich);
    RunNormal(START, pieces);
    p, q := TrimmedRun(Normal(pieces), chars.space);
    var out := Run(START, Tokenize(Rendered(chars, doc)));
    EntitiesAreApart(START, Tokenize(Rendered(chars, doc)));
    FromStart(Denote(rich), out, p, q);
  }

  lemma FromStart(m: Meaning, out: Reading, p: string, q: string)
    requires Reads(START, Wrote(Behind(p, out), q), m) && EntityInv(out)
    ensures m.text == p + out.b + q && m.marks == Shifted(out.entities, Utf16(p)) && Apart(out.entities, Utf16(out.b))
  {
    var all := Wrote(Behind(p, out), q);
    assert START.b + m.text == m.text && all.b == p + out.b + q;
    assert START.entities + Shifted(m.marks, 0) == m.marks && all.entities == Shifted(out.entities, Utf16(p));
    ApartAtEnd(out);
  }

  lemma ApartAtEnd(out: Reading)
    requires EntityInv(out) && out.start < 0
    ensures Apart(out.entities, Utf16(out.b))
  {
  }

  // ---------- What the entities cover ----------

  datatype MonoText = MonoText(name: Name, text: string)

  /** The code and pre contents that are not empty, in order. */
  function Monos(r: Rich): seq<MonoText> {
    match r
    case End => []
    case Plain(_, rest) => Monos(rest)
    case Style(_, inner, rest) => Monos(inner) + Monos(rest)
    case Linked(_, inner, rest) => Monos(inner) + Monos(rest)
    case Mono(name, text, rest) => (if text == "" then [] else [MonoText(name, text)]) + Monos(rest)
  }

  /** The mark covers just that content. */
  ghost predicate Covers(text: string, e: Entity, m: MonoText) {
    exists a: string, b: string :: Splits(text, a, m.text, b) && e == Entity(if m.name == Pre then PreEntity else CodeEntity, Utf16(a), Utf16(m.text))
  }

  ghost predicate Splits(text: string, a: string, m: string, b: string) {
    text == a + m + b
  }

  ghost predicate MarksCover(m: Meaning, monos: seq<MonoText>) {
    |m.marks| == |monos| && forall i :: 0 <= i < |monos| ==> Covers(m.text, m.marks[i], monos[i])
  }

  lemma CoversBefore(text: string, e: Entity, m: MonoText, more: string)
    requires Covers(text, e, m)
    ensures Covers(text + more, e, m)
  {
    var a: string, b: string :| Splits(text, a, m.text, b) && e == Entity(if m.name == Pre then PreEntity else CodeEntity, Utf16(a), Utf16(m.text));
    SplitsBefore(text, more, a, m.text, b);
  }

  lemma CoversBehind(text: string, e: Entity, m: MonoText, front: string)
    requires Covers(text, e, m)
    ensures Covers(front + text, e.(offset := e.offset + Utf16(front)), m)
  {
    var a: string, b: string :| Splits(text, a, m.text, b) && e == Entity(if m.name == Pre then PreEntity else CodeEntity, Utf16(a), Utf16(m.text));
    Utf16InTurn(front, a);
    SplitsBehind(front, text, a, m.text, b);
  }

  lemma SplitsBehind(front: string, text: string, a: string, m: string, b: string)
    requires Splits(text, a, m, b)
    ensures Splits(front + text, front + a, m, b)
  {
    Regroup(front, a + m, b);
    Regroup(front, a, m);
  }

  lemma SplitsBefore(text: string, more: string, a: string, m: string, b: string)
    requires Splits(text, a, m, b)
    ensures Splits(text + more, a, m, b + more)
  {
    Regroup(a + m, b, more);
  }

  lemma JoinCovers(x: Meaning, y: Meaning, mx: seq<MonoText>, my: seq<MonoText>)
    requires MarksCover(x, mx) && MarksCover(y, my)
    ensures MarksCover(Join(x, y), mx + my)
  {
    forall i | 0 <= i < |mx + my| ensures Covers(x.text + y.text, Join(x, y).marks[i], (mx + my)[i]) {
      if i < |mx| {
        CoversBefore(x.text, x.marks[i], mx[i], y.text);
      } else {
        CoversBehind(y.text, y.marks[i - |mx|], my[i - |mx|], x.text);
      }
    }
  }

  lemma AddressedCovers(href: string, m: Meaning, monos: seq<MonoText>)
    requires MarksCover(m, monos)
    ensures MarksCover(Addressed(href, m), monos)
  {
    forall i | 0 <= i < |monos| ensures Covers(Addressed(href, m).text, m.marks[i], monos[i]) {
      CoversBefore(m.text, m.marks[i], monos[i], Address(href));
    }
  }

  /** There is one mark for each code and pre content that is not empty, in order, and it covers just
      that content. */
  lemma {:induction false} MarksCoverMonos(rich: Rich)
    ensures MarksCover(Denote(rich), Monos(rich))
    decreases rich
  {
    match rich
    case End =>
    case Plain(text, rest) =>
      MarksCoverMonos(rest);
      JoinCovers(Meaning(text, []), Denote(rest), [], Monos(rest));
      assert [] + Monos(rest) == Monos(rest);
    case Style(_, inner, rest) =>
      MarksCoverMonos(inner);
      MarksCoverMonos(rest);
      JoinCovers(Denote(inner), Denote(rest), Monos(inner), Monos(rest));
    case Linked(href, inner, rest) =>
      MarksCoverMonos(inner);
      MarksCoverMonos(rest);
      AddressedCovers(href, Denote(inner), Monos(inner));
      JoinCovers(Addressed(href, Denote(inner)), Denote(rest), Monos(inner), Monos(rest));
    case Mono(name, text, rest) =>
      MarksCoverMonos(rest);
      assert Splits(text, "", text, "") by { NothingAround(text); }
      JoinCovers(MonoMeaning(name, text), Denote(rest), if text == "" then [] else [MonoText(name, text)], Monos(rest));
  }

  /** Of two beginnings of a text the one with more UTF-16 units is the longer. */
  lemma LongerBeginning(a: string, b: string, p: string, q: string)
    requires a + b == p + q && Utf16(p) <= Utf16(a)
    ensures |p| <= |a|
  {
    if |a| < |p| {
      assert p == (p + q)[..|p|] == (a + b)[..|p|];
      assert p == a + p[|a|..];
      Utf16InTurn(a, p[|a|..]);
      Utf16Counts(p[|a|..]);
    }
  }

  lemma InnerSplit(p: string, middle: string, q: string, a: string, m: string, b: string)
    requires p + middle + q == a + m + b && |p| <= |a| && |a + m| <= |p + middle|
    ensures a == p + a[|p|..] && middle == a[|p|..] + m + middle[|a + m| - |p|..]
  {
    var text := p + middle + q;
    assert a == text[..|a|] && p == text[..|p|] && middle == text[|p|..|p + middle|];
    assert m == text[|a|..|a + m|];
  }

  /** What lies within the middle of a text, by its UTF-16 units, is a part of the middle. */
  lemma WithinMiddle(p: string, middle: string, q: string, a: string, m: string, b: string) returns (front: string, back: string)
    requires p + middle + q == a + m + b
    requires Utf16(p) <= Utf16(a) && Utf16(a) + Utf16(m) <= Utf16(p) + Utf16(middle)
    ensures Splits(middle, front, m, back) && Utf16(a) == Utf16(p) + Utf16(front)
  {
    Regroup(a, m, b);
    Regroup(p, middle, q);
    LongerBeginning(a, m + b, p, middle + q);
    Utf16InTurn(a, m);
    Utf16InTurn(p, middle);
    LongerBeginning(p + middle, q, a + m, b);
    InnerSplit(p, middle, q, a, m, b);
    front, back := a[|p|..], middle[|a + m| - |p|..];
    Utf16InTurn(p, front);
  }

  /** A mark that lies within the middle of a text covers what it covers there. */
  lemma CoversWithin(p: string, middle: string, q: string, e: Entity, m: MonoText)
    requires Covers(p + middle + q, e.(offset := e.offset + Utf16(p)), m)
    requires 0 <= e.offset && e.offset + e.length <= Utf16(middle)
    ensures Covers(middle, e, m)
  {
    var moved := e.(offset := e.offset + Utf16(p));
    var a: string, b: string :|
      Splits(p + middle + q, a, m.text, b) && moved == Entity(if m.name == Pre then PreEntity else CodeEntity, Utf16(a), Utf16(m.text));
    var front, back := WithinMiddle(p, middle, q, a, m.text, b);
    assert Splits(middle, front, m.text, back) && e == Entity(e.kind, Utf16(front), Utf16(m.text));
  }

  /** Reading a rendered tree gives one entity for each code and pre content that is not empty, in order,
      each covering just its content in the text read. */
  lemma EntitiesCoverMonos(chars: Chars, doc: Node)
    requires WellFormed(doc, false) && NoReturns(doc) && SpaceLaws(chars.space)
    ensures var out := Run(START, Tokenize(Rendered(chars, doc)));
      MarksCover(Meaning(out.b, out.entities), Monos(Compose(chars, doc, []).rich))
  {
    var p, q := RenderThenRead(chars, doc);
    var rich := Compose(chars, doc, []).rich;
    MarksCoverMonos(rich);
    var out, monos := Run(START, Tokenize(Rendered(chars, doc))), Monos(rich);
    ShiftedCover(out, p, q, Denote(rich), monos);
  }

  lemma ShiftedCover(out: Reading, p: string, q: string, m: Meaning, monos: seq<MonoText>)
    requires m.text == p + out.b + q && m.marks == Shifted(out.entities, Utf16(p)) && Apart(out.entities, Utf16(out.b))
    requires MarksCover(m, monos)
    ensures MarksCover(Meaning(out.b, out.entities), monos)
  {
    forall i | 0 <= i < |monos| ensures Covers(out.b, out.entities[i], monos[i]) {
      CoversWithin(p, out.b, q, out.entities[i], monos[i]);
    }
  }
}
