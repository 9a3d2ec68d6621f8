/** What stands in the HTML the renderer writes (internal/transport/telegram format), spelled out: every
    node's tags, and the number in front of every item of a list, however its items nest. */
module TelegramMarkup {
  import opened Options
  import opened Telegram
  import L = TelegramLaws
  import R = TelegramReader
  import Text

  // ---------- Lists ----------

  /** As Markdown parses: a list's children are its items, and items stand nowhere else. */
  predicate ItemsStandInLists(n: Node)
    decreases n
  {
    forall i :: 0 <= i < |Children(n)| ==> (Children(n)[i].ListItem? <==> n.List?) && ItemsStandInLists(Children(n)[i])
  }

  predicate Items(nodes: seq<Node>) {
    forall i :: 0 <= i < |nodes| ==> nodes[i].ListItem? && ItemsStandInLists(nodes[i])
  }

  predicate NoItems(nodes: seq<Node>) {
    forall i :: 0 <= i < |nodes| ==> !nodes[i].ListItem? && ItemsStandInLists(nodes[i])
  }

  /** The list's state `k` items further on. */
  function Behind(ls: ListState, k: nat): ListState {
    ListState(ls.ordered, if ls.ordered then ls.item + k else ls.item)
  }

  /** What stands in an item, written in these lists. */
  ghost function ItemText(chars: Chars, item: Node, lists: seq<ListState>): string
    requires item.ListItem? && WellFormed(item, true) && lists != []
  {
    WriteAll(chars, item, Children(item), lists).html
  }

  lemma {:induction false} NodeKeeps(chars: Chars, n: Node, lists: seq<ListState>)
    requires WellFormed(n, lists != []) && ItemsStandInLists(n) && !n.ListItem?
    ensures Write(chars, n, lists).lists == lists
    decreases n, 1
  {
    if n.List? {
      ItemsCount(chars, n, Children(n), lists, ListState(n.ordered, if n.start == 0 then 1 else n.start));
    } else {
      NodesKeep(chars, n, Children(n), lists);
    }
  }

  lemma {:induction false} NodesKeep(chars: Chars, parent: Node, nodes: seq<Node>, lists: seq<ListState>)
    requires forall i :: 0 <= i < |nodes| ==> nodes[i] < parent && WellFormed(nodes[i], lists != [])
    requires NoItems(nodes)
    ensures WriteAll(chars, parent, nodes, lists).lists == lists
    decreases parent, 0, |nodes|
  {
    if nodes != [] {
      NodesKeep(chars, parent, nodes[..|nodes| - 1], lists);
      NodeKeeps(chars, nodes[|nodes| - 1], lists);
    }
  }

  /** An item counts its own list on by one, and leaves the lists around it as they were. */
  lemma {:induction false} ItemCounts(chars: Chars, n: Node, outer: seq<ListState>, ls: ListState)
    requires n.ListItem? && WellFormed(n, true) && ItemsStandInLists(n)
    ensures Write(chars, n, outer + [ls]).lists == outer + [Behind(ls, 1)]
    ensures Write(chars, n, outer + [ls]).html ==
      (if ls.ordered then Text.Decimal(ls.item) + ['.', ' '] else ['\U{2022}', ' '])
      + ItemText(chars, n, outer + [Behind(ls, 1)]) + ['\n']
    decreases n, 1
  {
    var lists := outer + [ls];
    assert lists[|lists| - 1 := Counted(Top(lists))] == outer + [Behind(ls, 1)];
    NodesKeep(chars, n, Children(n), outer + [Behind(ls, 1)]);
  }

  lemma {:induction false} ItemsCount(chars: Chars, parent: Node, nodes: seq<Node>, outer: seq<ListState>, ls: ListState)
    requires forall i :: 0 <= i < |nodes| ==> nodes[i] < parent && WellFormed(nodes[i], true)
    requires Items(nodes)
    ensures WriteAll(chars, parent, nodes, outer + [ls]).lists == outer + [Behind(ls, |nodes|)]
    decreases parent, 0, |nodes|
  {
    if nodes != [] {
      ItemsCount(chars, parent, nodes[..|nodes| - 1], outer, ls);
      ItemCounts(chars, nodes[|nodes| - 1], outer, Behind(ls, |nodes| - 1));
    }
  }

  function Concat(pieces: seq<string>): string {
    if pieces == [] then "" else pieces[0] + Concat(pieces[1..])
  }

  /** What an item gives: its number or a bullet, what stands in it (where the list counts on), a line break. */
  ghost function Piece(chars: Chars, ordered: bool, number: nat, item: Node, outer: seq<ListState>): string
    requires item.ListItem? && WellFormed(item, true)
  {
    (if ordered then Text.Decimal(number) + ['.', ' '] else ['\U{2022}', ' '])
    + ItemText(chars, item, outer + [ListState(ordered, if ordered then number + 1 else number)]) + ['\n']
  }

  /** What a numbered list's items give: the first has the number `first` and each further one the next. */
  ghost function ItemPieces(chars: Chars, ordered: bool, first: nat, items: seq<Node>, outer: seq<ListState>): (pieces: seq<string>)
    requires Items(items) && forall i :: 0 <= i < |items| ==> WellFormed(items[i], true)
    ensures |pieces| == |items|
  {
    seq(|items|, k requires 0 <= k < |items| => Piece(chars, ordered, if ordered then first + k else first, items[k], outer))
  }

  lemma PieceIsWritten(chars: Chars, ordered: bool, number: nat, item: Node, outer: seq<ListState>)
    requires item.ListItem? && WellFormed(item, true) && ItemsStandInLists(item)
    ensures Piece(chars, ordered, number, item, outer) == Write(chars, item, outer + [ListState(ordered, number)]).html
  {
    ItemCounts(chars, item, outer, ListState(ordered, number));
  }

  lemma LastPiece(chars: Chars, ordered: bool, first: nat, items: seq<Node>, outer: seq<ListState>)
    requires items != [] && Items(items) && forall i :: 0 <= i < |items| ==> WellFormed(items[i], true)
    ensures ItemPieces(chars, ordered, first, items, outer) == ItemPieces(chars, ordered, first, items[..|items| - 1], outer)
      + [Write(chars, items[|items| - 1], outer + [Behind(ListState(ordered, first), |items| - 1)]).html]
  {
    PieceIsWritten(chars, ordered, if ordered then first + (|items| - 1) else first, items[|items| - 1], outer);
  }

  lemma {:induction false} ConcatLast(pieces: seq<string>, last: string)
    ensures Concat(pieces + [last]) == Concat(pieces) + last
  {
    if pieces == [] {
      assert [last][1..] == [] && "" + last == last == last + "";
    } else {
      assert (pieces + [last])[1..] == pieces[1..] + [last];
      ConcatLast(pieces[1..], last);
    }
  }

  lemma WriteAllLast(chars: Chars, parent: Node, nodes: seq<Node>, lists: seq<ListState>)
    requires nodes != [] && forall i :: 0 <= i < |nodes| ==> nodes[i] < parent && WellFormed(nodes[i], lists != [])
    ensures var front := WriteAll(chars, parent, nodes[..|nodes| - 1], lists);
      WriteAll(chars, parent, nodes, lists).html == front.html + Write(chars, nodes[|nodes| - 1], front.lists).html
  {
  }

  lemma {:induction false} ItemsAreNumbered(chars: Chars, parent: Node, ordered: bool, first: nat, items: seq<Node>, outer: seq<ListState>)
    requires Items(items) && forall i :: 0 <= i < |items| ==> items[i] < parent && WellFormed(items[i], true)
    ensures WriteAll(chars, parent, items, outer + [ListState(ordered, first)]).html == Concat(ItemPieces(chars, ordered, first, items, outer))
    decreases |items|
  {
    if items != [] {
      var front := items[..|items| - 1];
      ItemsAreNumbered(chars, parent, ordered, first, front, outer);
      ItemsCount(chars, parent, front, outer, ListState(ordered, first));
      WriteAllLast(chars, parent, items, outer + [ListState(ordered, first)]);
      LastPiece(chars, ordered, first, items, outer);
      ConcatLast(ItemPieces(chars, ordered, first, front, outer),
                 Write(chars, items[|items| - 1], outer + [Behind(ListState(ordered, first), |front|)]).html);
    }
  }

  lemma ListHoldsItems(n: Node, inList: bool)
    requires n.List? && WellFormed(n, inList) && ItemsStandInLists(n)
    ensures Items(Children(n)) && forall i :: 0 <= i < |Children(n)| ==> WellFormed(Children(n)[i], true)
  {
  }

  lemma ListWrites(chars: Chars, n: Node, outer: seq<ListState>)
    requires n.List? && WellFormed(n, outer != [])
    ensures forall i :: 0 <= i < |Children(n)| ==> WellFormed(Children(n)[i], true)
    ensures Write(chars, n, outer).html ==
      WriteAll(chars, n, Children(n), outer + [ListState(n.ordered, if n.start == 0 then 1 else n.start)]).html
      + if outer == [] then ['\n'] else ""
  {
    var inner := WriteAll(chars, n, Children(n), outer + [ListState(n.ordered, if n.start == 0 then 1 else n.start)]);
    assert "" + inner.html == inner.html;
  }

  /** A list is written as its items in order, each behind its number: `start` (1 for 0), `start + 1`, and so
      on, whatever lists the items hold; the outermost list ends with one more line break. */
  lemma ListIsNumbered(chars: Chars, n: Node, outer: seq<ListState>)
    requires n.List? && WellFormed(n, outer != []) && ItemsStandInLists(n)
    ensures Items(Children(n)) && forall i :: 0 <= i < |Children(n)| ==> WellFormed(Children(n)[i], true)
    ensures Write(chars, n, outer).html ==
      Concat(ItemPieces(chars, n.ordered, if n.start == 0 then 1 else n.start, Children(n), outer))
      + if outer == [] then ['\n'] else ""
  {
    ListHoldsItems(n, outer != []);
    ListWrites(chars, n, outer);
    ItemsAreNumbered(chars, n, n.ordered, if n.start == 0 then 1 else n.start, Children(n), outer);
  }

  /** The k-th item of a numbered list begins with the list's first number and k. */
  lemma ItemBegins(chars: Chars, first: nat, items: seq<Node>, outer: seq<ListState>, k: nat)
    requires Items(items) && (forall i :: 0 <= i < |items| ==> WellFormed(items[i], true)) && k < |items|
    ensures Text.Decimal(first + k) + ['.', ' '] <= ItemPieces(chars, true, first, items, outer)[k]
  {
    var rest := ItemText(chars, items[k], outer + [ListState(true, first + k + 1)]) + ['\n'];
    assert ItemPieces(chars, true, first, items, outer)[k] == Text.Decimal(first + k) + ['.', ' '] + rest;
  }

  // ---------- Tags ----------

  lemma PairWritten(chars: Chars, n: Node, lists: seq<ListState>, open: string, close: string)
    requires WellFormed(n, lists != []) && !n.List? && !n.ListItem?
    requires Enter(chars, n, lists) == open && Exit(chars, n, WriteAll(chars, n, Children(n), lists).lists) == close
    ensures Write(chars, n, lists).html == open + WriteAll(chars, n, Children(n), lists).html + close
  {
  }

  /** Emphasis is bold from level two on and italic below; a heading is a bold line; a quote is a blockquote. */
  lemma StyleWritten(chars: Chars, n: Node, lists: seq<ListState>)
    requires WellFormed(n, lists != [])
    ensures n.Emphasis? ==>
      (var letter := if n.level >= 2 then 'b' else 'i';
       Write(chars, n, lists).html == ['<', letter, '>'] + WriteAll(chars, n, Children(n), lists).html + ['<', '/', letter, '>'])
    ensures n.Heading? ==>
      Write(chars, n, lists).html == ['<', 'b', '>'] + WriteAll(chars, n, Children(n), lists).html + ['<', '/', 'b', '>', '\n', '\n']
    ensures n.Blockquote? ==>
      (var name := ['b', 'l', 'o', 'c', 'k', 'q', 'u', 'o', 't', 'e'];
       Write(chars, n, lists).html == ['<'] + name + ['>'] + WriteAll(chars, n, Children(n), lists).html + ['<', '/'] + name + ['>', '\n'])
  {
    if n.Emphasis? {
      var letter := if n.level >= 2 then 'b' else 'i';
      assert EmphasisName(n.level) == [letter] && ['<'] + [letter] + ['>'] == ['<', letter, '>'];
      assert ['<', '/'] + [letter] + ['>'] == ['<', '/', letter, '>'];
      PairWritten(chars, n, lists, ['<', letter, '>'], ['<', '/', letter, '>']);
    } else if n.Heading? {
      PairWritten(chars, n, lists, ['<', 'b', '>'], ['<', '/', 'b', '>', '\n', '\n']);
    } else if n.Blockquote? {
      var name := ['b', 'l', 'o', 'c', 'k', 'q', 'u', 'o', 't', 'e'];
      assert NameText(Quote) == name && ['<', '/'] + name + ['>'] + ['\n'] == ['<', '/'] + name + ['>', '\n'];
      PairWritten(chars, n, lists, ['<'] + name + ['>'], ['<', '/'] + name + ['>'] + ['\n']);
    }
  }

  /** An address is of the web if, trimmed and in lower case, it begins with one of the two schemes. */
  lemma WebUrlIs(chars: Chars, dest: string)
    ensures IsWebUrl(chars, dest) <==>
      (['h', 't', 't', 'p', ':', '/', '/'] <= chars.lower(Text.Trim(dest, chars.space))
       || ['h', 't', 't', 'p', 's', ':', '/', '/'] <= chars.lower(Text.Trim(dest, chars.space)))
  {
    assert HTTP == ['h', 't', 't', 'p', ':', '/', '/'] && HTTPS == ['h', 't', 't', 'p', 's', ':', '/', '/'];
  }

  lemma LinkTagIs(href: string)
    ensures LinkOpen(href) == ['<', 'a', ' ', 'h', 'r', 'e', 'f', '=', '"'] + Escape(href) + ['"', '>']
    ensures TagClose(NameText(Anchor)) == ['<', '/', 'a', '>']
  {
    assert ['<'] + NameText(Anchor) + [' '] + HREF + ['"'] == ['<', 'a', ' ', 'h', 'r', 'e', 'f', '=', '"'];
  }

  /** A link or an image is a clickable link exactly if its address is of the web; otherwise its text alone
      is shown. */
  lemma LinkWritten(chars: Chars, n: Node, lists: seq<ListState>)
    requires WellFormed(n, lists != []) && (n.Link? || n.Image?)
    ensures IsWebUrl(chars, n.dest) ==>
      Write(chars, n, lists).html == ['<', 'a', ' ', 'h', 'r', 'e', 'f', '=', '"'] + Escape(n.dest) + ['"', '>']
        + WriteAll(chars, n, Children(n), lists).html + ['<', '/', 'a', '>']
    ensures !IsWebUrl(chars, n.dest) ==> Write(chars, n, lists).html == WriteAll(chars, n, Children(n), lists).html
  {
    if IsWebUrl(chars, n.dest) {
      PairWritten(chars, n, lists, LinkOpen(n.dest), TagClose(NameText(Anchor)));
      LinkTagIs(n.dest);
    } else {
      PairWritten(chars, n, lists, "", "");
      assert "" + WriteAll(chars, n, Children(n), lists).html + "" == WriteAll(chars, n, Children(n), lists).html;
    }
  }

  lemma LeafWritten(chars: Chars, n: Node, lists: seq<ListState>)
    requires WellFormed(n, lists != []) && Children(n) == [] && !n.List? && !n.ListItem?
    ensures Write(chars, n, lists).html == Enter(chars, n, lists) + Exit(chars, n, lists)
  {
    assert Enter(chars, n, lists) + "" == Enter(chars, n, lists);
  }

  /** Code is shown as its text, whatever else stands in it, in a code element; a block of code as its lines,
      in a pre element. */
  lemma CodeWritten(chars: Chars, n: Node, lists: seq<ListState>)
    requires WellFormed(n, lists != [])
    ensures n.CodeSpan? ==>
      (var name := ['c', 'o', 'd', 'e'];
       Write(chars, n, lists).html == ['<'] + name + ['>'] + Escape(Concat(Texts(n.children))) + ['<', '/'] + name + ['>'])
    ensures n.CodeBlock? ==>
      (var name := ['p', 'r', 'e'];
       Write(chars, n, lists).html == ['<'] + name + ['>'] + Escape(Concat(n.lines)) + ['<', '/'] + name + ['>'] + ['\n', '\n'])
  {
    if n.CodeSpan? {
      assert NameText(Code) == ['c', 'o', 'd', 'e'];
      ChildTextIs(n.children);
      LeafWritten(chars, n, lists);
    } else if n.CodeBlock? {
      assert NameText(Pre) == ['p', 'r', 'e'];
      JoinedIs(n.lines);
      LeafWritten(chars, n, lists);
    }
  }

  function Texts(children: seq<Node>): seq<string> {
    seq(|children|, i requires 0 <= i < |children| => if children[i].Text? then children[i].text else "")
  }

  lemma {:induction false} JoinedIs(lines: seq<string>)
    ensures Joined(lines) == Concat(lines)
  {
    if lines != [] {
      JoinedIs(lines[1..]);
    }
  }

  lemma {:induction false} ChildTextIs(children: seq<Node>)
    ensures ChildText(children) == Concat(Texts(children))
  {
    if children != [] {
      ChildTextIs(children[1..]);
      assert Texts(children)[1..] == Texts(children[1..]);
    }
  }

  /** The text between: a line break where the source breaks, one behind a paragraph in a list and two behind
      one outside, a dash for a break of the page. */
  lemma FlowWritten(chars: Chars, n: Node, lists: seq<ListState>)
    requires WellFormed(n, lists != [])
    ensures n.Text? ==> Write(chars, n, lists).html == Escape(n.text) + if n.breaks then ['\n'] else ""
    ensures n.Str? ==> Write(chars, n, lists).html == Escape(n.text)
    ensures n.AutoLink? ==>
      Write(chars, n, lists).html ==
        ['<', 'a', ' ', 'h', 'r', 'e', 'f', '=', '"'] + Escape(n.url) + ['"', '>'] + Escape(n.url) + ['<', '/', 'a', '>']
    ensures n.Paragraph? ==>
      Write(chars, n, lists).html == WriteAll(chars, n, Children(n), lists).html + if lists == [] then ['\n', '\n'] else ['\n']
    ensures n.TextBlock? ==> Write(chars, n, lists).html == WriteAll(chars, n, Children(n), lists).html + ['\n']
    ensures n.ThematicBreak? ==> Write(chars, n, lists).html == ['\U{2014}', '\n']
    ensures n.RawHtml? ==> Write(chars, n, lists).html == ""
  {
    if n.Paragraph? || n.TextBlock? {
      var inner := WriteAll(chars, n, Children(n), lists);
      PairWritten(chars, n, lists, "", Exit(chars, n, inner.lists));
      assert "" + inner.html == inner.html;
    } else if Children(n) == [] && !n.List? && !n.ListItem? {
      LeafWritten(chars, n, lists);
      if n.AutoLink? {
        LinkTagIs(n.url);
      }
    }
  }

  /** The five characters the HTML standard reserves are written as their entities, and no other is changed. */
  lemma EscapeIs(s: string, c: char, t: string)
    ensures Escape(s + [c] + t) == Escape(s) + Escape([c]) + Escape(t)
    ensures Escape([c]) ==
      if c == '<' then ['&', 'l', 't', ';'] else if c == '>' then ['&', 'g', 't', ';'] else if c == '&' then ['&', 'a', 'm', 'p', ';']
      else if c == '"' then ['&', '#', '3', '4', ';'] else if c == '\'' then ['&', '#', '3', '9', ';'] else [c]
  {
    EscapeInTurn(s + [c], t);
    EscapeInTurn(s, [c]);
    assert [c][1..] == "" && EscapeChar(c) + "" == EscapeChar(c);
  }

  // ---------- Reading ----------

  /** A carriage return reads as a line break, with the line feed behind it if there is one; nothing else changes. */
  lemma {:induction false} NewlinesAre(s: string, t: string)
    requires '\r' !in s
    ensures Newlines(s) == s
    ensures Newlines(s + ['\r'] + t) == s + if t != "" && t[0] == '\n' then Newlines(t) else ['\n'] + Newlines(t)
  {
    if s != "" {
      NewlinesAre(s[1..], t);
      assert (s + ['\r'] + t)[1..] == s[1..] + ['\r'] + t;
    } else {
      assert (s + ['\r'] + t)[1..] == t;
    }
  }

  /** Lengths are counted in UTF-16 units: two for a character beyond the basic plane, one for any other. */
  lemma Utf16Is(s: string, c: char)
    ensures Utf16("") == 0 && Utf16(s + [c]) == Utf16(s) + if (c as int) < 0x1_0000 then 1 else 2
  {
    R.Utf16InTurn(s, [c]);
  }

  lemma RunThree(r: Reading, a: Token, b: Token, c: Token)
    ensures Run(r, [a, b, c]) == Step(Step(Step(r, a), b), c)
  {
    assert [a, b, c] == [a] + [b, c] && [b, c] == [b] + [c] && [c] == [c] + [];
    L.RunFirst(r, a, [b, c]);
    L.RunFirst(Step(r, a), b, [c]);
    L.RunFirst(Step(Step(r, a), b), c, []);
  }

  /** A link reads as its text and behind it, unless that is the text already, its address in parentheses. */
  lemma LinkIsRead(r: Reading, href: string, text: string)
    ensures var r' := Run(r, [StartTag(['a'], Some(href)), TextToken(text), EndTag(['a'])]);
      var shown := text + if href == "" || text == href then "" else [' ', '('] + href + [')'];
      r' == r.(b := r.b + shown, n := r.n + Utf16(shown))
  {
    assert NameText(Anchor) == ['a'] && !IsMono(['a']);
    RunThree(r, StartTag(['a'], Some(href)), TextToken(text), EndTag(['a']));
    var inside := Step(Step(r, StartTag(['a'], Some(href))), TextToken(text));
    assert inside.links[..|inside.links| - 1] == r.links && inside.b[|r.b|..] == text;
    R.Utf16InTurn(text, Address(href));
    assert r.b + text + Address(href) == r.b + (text + Address(href)) && text + "" == text;
  }

  /** A code or pre element that holds text is one entity, from where the text begins to where it ends. */
  lemma MonoIsRead(r: Reading, pre: bool, text: string)
    requires r.start == -1
    ensures var name := if pre then ['p', 'r', 'e'] else ['c', 'o', 'd', 'e'];
      var kind := if pre then PreEntity else CodeEntity;
      var r' := Run(r, [StartTag(name, None), TextToken(text), EndTag(name)]);
      && r'.b == r.b + text && r'.n == r.n + Utf16(text) && r'.start == -1 && r'.links == r.links
      && (r.n >= 0 ==> r'.entities == r.entities + if text == "" then [] else [Entity(kind, r.n, Utf16(text))])
  {
    var name := if pre then ['p', 'r', 'e'] else ['c', 'o', 'd', 'e'];
    assert NameText(Pre) == ['p', 'r', 'e'] && NameText(Code) == ['c', 'o', 'd', 'e'];
    assert |NameText(Pre)| == 3 && |NameText(Code)| == 4;
    RunThree(r, StartTag(name, None), TextToken(text), EndTag(name));
    L.Utf16Counts(text);
  }
}
