/** The renderer's strings (internal/transport/telegram format): what escaping, printing and reading a
    tag do to each other. */
module TelegramHtml {
  import opened Options
  import opened Telegram
  import Text

  // ---------- Escaping ----------

  predicate Markup(c: char) {
    c == '<' || c == '>' || c == '"'
  }

  lemma EntityNameLaws(c: char)
    requires Special(c)
    ensures Named(EntityName(c)) == Some(c) && ';' !in EntityName(c)
    ensures forall x :: x in EntityName(c) ==> !Markup(x)
  {
  }

  lemma {:induction false} EscapeHidesMarkup(s: string)
    ensures forall x :: x in Escape(s) ==> !Markup(x)
  {
    if s != "" {
      EscapeHidesMarkup(s[1..]);
      if Special(s[0]) {
        EntityNameLaws(s[0]);
      }
    }
  }

  lemma UnescapeEntity(c: char, rest: string)
    requires Special(c)
    ensures Unescape(EscapeChar(c) + rest) == [c] + Unescape(rest)
  {
    var name := EntityName(c);
    var s := EscapeChar(c) + rest;
    EntityNameLaws(c);
    assert s == (['&'] + name) + ([';'] + rest);
    Text.CutBehind(['&'] + name, [';'] + rest, ';');
    assert s[1..|name| + 1] == name && s[|name| + 2..] == rest;
  }

  /** Reading back what was escaped gives the text. */
  lemma {:induction false} UnescapeEscape(s: string)
    ensures Unescape(Escape(s)) == s
  {
    if s != "" {
      UnescapeEscape(s[1..]);
      if Special(s[0]) {
        UnescapeEntity(s[0], Escape(s[1..]));
      } else {
        assert Escape(s)[1..] == Escape(s[1..]);
      }
    }
  }

  lemma {:induction false} NewlinesKept(s: string)
    requires '\r' !in s
    ensures Newlines(s) == s
  {
    if s != "" {
      NewlinesKept(s[1..]);
    }
  }

  lemma {:induction false} NewlinesBehind(front: string, rest: string)
    requires '\r' !in front
    ensures Newlines(front + rest) == front + Newlines(rest)
  {
    if front == "" {
      assert front + rest == rest;
    } else {
      NewlinesBehind(front[1..], rest);
      assert (front + rest)[1..] == front[1..] + rest;
    }
  }

  lemma EscapeKeepsNewline(s: string)
    ensures s != "" ==> Escape(s) != "" && (Escape(s)[0] == '\n' <==> s[0] == '\n')
    ensures s == "" ==> Escape(s) == ""
  {
  }

  lemma EscapedHasNoReturn(c: char)
    requires c != '\r'
    ensures '\r' !in EscapeChar(c)
  {
  }

  lemma {:induction false} NewlinesEscape(s: string)
    ensures Newlines(Escape(s)) == Escape(Newlines(s))
  {
    if s != "" {
      NewlinesEscape(s[1..]);
      if s[0] == '\r' {
        EscapeKeepsNewline(s[1..]);
        assert Escape(s)[1..] == Escape(s[1..]);
        assert (['\n'] + Newlines(s[1..]))[1..] == Newlines(s[1..]);
      } else {
        EscapedHasNoReturn(s[0]);
        NewlinesBehind(EscapeChar(s[0]), Escape(s[1..]));
        assert ([s[0]] + Newlines(s[1..]))[1..] == Newlines(s[1..]);
      }
    }
  }

  lemma RawEscape(s: string)
    ensures Raw(Escape(s)) == Newlines(s)
  {
    NewlinesEscape(s);
    UnescapeEscape(Newlines(s));
  }

  // ---------- Trimming an escaped text ----------

  /** Nothing that is escaped, or that an escape is made of at its ends, is space. */
  ghost predicate SpaceLaws(space: char -> bool) {
    !space('&') && !space(';') && !space('<') && !space('>') && !space('\'') && !space('"')
  }

  lemma EscapeCharEnds(c: char, space: char -> bool)
    requires SpaceLaws(space)
    ensures if space(c) then EscapeChar(c) == [c]
      else EscapeChar(c) != "" && !space(EscapeChar(c)[0]) && !space(EscapeChar(c)[|EscapeChar(c)| - 1])
  {
  }

  lemma TrimLeftStep(e: string, rest: string, space: char -> bool)
    requires e != ""
    ensures !space(e[0]) ==> Text.TrimLeft(e + rest, space) == e + rest
    ensures |e| == 1 && space(e[0]) ==> Text.TrimLeft(e + rest, space) == Text.TrimLeft(rest, space)
  {
    assert |e| == 1 ==> (e + rest)[1..] == rest;
  }

  lemma TrimRightStep(front: string, e: string, space: char -> bool)
    requires e != ""
    ensures !space(e[|e| - 1]) ==> Text.TrimRight(front + e, space) == front + e
    ensures |e| == 1 && space(e[0]) ==> Text.TrimRight(front + e, space) == Text.TrimRight(front, space)
  {
    assert (front + e)[|front + e| - 1] == e[|e| - 1];
    assert |e| == 1 ==> (front + e)[..|front + e| - 1] == front;
  }

  lemma {:induction false} TrimLeftEscape(s: string, space: char -> bool)
    requires SpaceLaws(space)
    ensures Text.TrimLeft(Escape(s), space) == Escape(Text.TrimLeft(s, space))
  {
    if s != "" {
      TrimLeftEscape(s[1..], space);
      EscapeCharEnds(s[0], space);
      TrimLeftStep(EscapeChar(s[0]), Escape(s[1..]), space);
    }
  }

  lemma EscapeOne(c: char)
    ensures Escape([c]) == EscapeChar(c)
  {
    assert [c][1..] == "" && EscapeChar(c) + "" == EscapeChar(c);
  }

  lemma EscapeLast(s: string)
    requires s != ""
    ensures Escape(s) == Escape(s[..|s| - 1]) + EscapeChar(s[|s| - 1])
  {
    var front, c := s[..|s| - 1], s[|s| - 1];
    assert s == front + [c];
    EscapeInTurn(front, [c]);
    EscapeOne(c);
  }

  lemma {:induction false} TrimRightEscape(s: string, space: char -> bool)
    requires SpaceLaws(space)
    ensures Text.TrimRight(Escape(s), space) == Escape(Text.TrimRight(s, space))
  {
    if s != "" {
      var front, c := s[..|s| - 1], s[|s| - 1];
      EscapeLast(s);
      TrimRightEscape(front, space);
      EscapeCharEnds(c, space);
      TrimRightStep(Escape(front), EscapeChar(c), space);
    }
  }

  // ---------- Tags ----------

  ghost predicate TidyName(name: string) {
    name != "" && forall c :: c in name ==> c != '/' && c != ' ' && !Markup(c)
  }

  ghost predicate TidyTag(t: Token) {
    match t
    case TextToken(_) => false
    case StartTag(name, _) => TidyName(name)
    case EndTag(name) => TidyName(name)
  }

  lemma NameLaws(n: Name)
    ensures TidyName(NameText(n))
    ensures IsMono(NameText(n)) <==> n == Code || n == Pre
    ensures NameText(n) == NameText(Anchor) <==> n == Anchor
    ensures NameText(n) == NameText(Pre) <==> n == Pre
  {
  }

  function Attribute(href: string): string {
    HREF + (['"'] + (Escape(href) + ['"']))
  }

  /** What stands between the angles of a printed tag. */
  function BodyOf(t: Token): string
    requires !t.TextToken?
  {
    match t
    case StartTag(name, None) => name
    case StartTag(name, Some(href)) => name + ([' '] + Attribute(href))
    case EndTag(name) => ['/'] + name
  }

  function PrintTag(t: Token): string
    requires !t.TextToken?
  {
    ['<'] + BodyOf(t) + ['>']
  }

  /** The tag as it is read back: its address with the tokenizer's newlines. */
  function ReadBack(t: Token): Token {
    if t.StartTag? && t.href.Some? then t.(href := Some(Newlines(t.href.value))) else t
  }

  lemma HrefLaws()
    ensures '"' !in HREF && forall c :: c in HREF ==> !Markup(c)
  {
  }

  lemma HrefIsRead(href: string)
    ensures HrefIn(Attribute(href)) == Some(Newlines(href))
  {
    HrefLaws();
    EscapeHidesMarkup(href);
    var value := Escape(href) + ['"'];
    Text.CutBehind(HREF, ['"'] + value, '"');
    assert Attribute(href)[..|HREF|] == HREF && Attribute(href)[|HREF| + 1..] == value;
    Text.CutBehind(Escape(href), ['"'], '"');
    assert value[..|Escape(href)|] == Escape(href);
    RawEscape(href);
  }

  lemma NameIsWhole(name: string)
    requires TidyName(name)
    ensures Text.Cut(name, ' ') == |name| && name[..|name|] == name && name[0] != '/'
  {
    Text.CutBehind(name, "", ' ');
    assert name + "" == name && name[0] in name;
  }

  lemma StartTagIsRead(name: string, href: string)
    requires TidyName(name)
    ensures ReadTag(name + ([' '] + Attribute(href))) == StartTag(name, Some(Newlines(href)))
  {
    var body := name + ([' '] + Attribute(href));
    NameIsWhole(name);
    Text.CutBehind(name, [' '] + Attribute(href), ' ');
    assert body[0] == name[0] && body[..|name|] == name && body[|name| + 1..] == Attribute(href);
    HrefIsRead(href);
  }

  lemma TagIsRead(t: Token)
    requires TidyTag(t)
    ensures ReadTag(BodyOf(t)) == ReadBack(t)
  {
    match t
    case StartTag(name, None) => NameIsWhole(name);
    case StartTag(name, Some(href)) => StartTagIsRead(name, href);
    case EndTag(name) =>
      assert (['/'] + name)[1..] == name;
  }

  lemma BodyHidesAngles(t: Token)
    requires TidyTag(t)
    ensures '>' !in BodyOf(t)
  {
    match t
    case StartTag(name, None) =>
    case StartTag(name, Some(href)) =>
      HrefLaws();
      EscapeHidesMarkup(href);
    case EndTag(name) =>
  }

  /** A printed tag reads as that tag. */
  lemma TagTokenizes(t: Token, rest: string)
    requires TidyTag(t)
    ensures Tokenize(PrintTag(t) + rest) == [ReadBack(t)] + Tokenize(rest)
  {
    var h, body := PrintTag(t) + rest, BodyOf(t);
    BodyHidesAngles(t);
    TagIsRead(t);
    assert h == (['<'] + body) + (['>'] + rest);
    Text.CutBehind(['<'] + body, ['>'] + rest, '>');
    assert h[1..|body| + 1] == body && h[|body| + 2..] == rest;
  }

  /** A printed text up to the next tag reads as that text, with the tokenizer's newlines. */
  lemma TextTokenizes(s: string, rest: string)
    requires s != "" && (rest == "" || rest[0] == '<')
    ensures Tokenize(Escape(s) + rest) == [TextToken(Newlines(s))] + Tokenize(rest)
  {
    var h, e := Escape(s) + rest, Escape(s);
    EscapeHidesMarkup(s);
    EscapeIsSome(s);
    assert h[0] == e[0] && e[0] in e;
    Text.CutBehind(e, rest, '<');
    assert h[..|e|] == e && h[|e|..] == rest;
    RawEscape(s);
  }

  lemma EscapeIsSome(s: string)
    requires s != ""
    ensures Escape(s) != ""
  {
  }
}
