/** Token streams (internal/transport/telegram format): printed and read back, trimmed, and run through
    the reader. */
module TelegramTokens {
  import opened Options
  import opened Telegram
  import opened TelegramHtml
  import Text

  // ---------- Printing a stream ----------

  function PrintToken(t: Token): string {
    if t.TextToken? then Escape(t.text) else PrintTag(t)
  }

  function Print(ts: seq<Token>): string {
    if ts == [] then "" else PrintToken(ts[0]) + Print(ts[1..])
  }

  lemma {:induction false} PrintInTurn(a: seq<Token>, b: seq<Token>)
    ensures Print(a + b) == Print(a) + Print(b)
  {
    if a == [] {
      assert a + b == b;
    } else {
      assert (a + b)[1..] == a[1..] + b;
      PrintInTurn(a[1..], b);
    }
  }

  /** A text, or a tag with the renderer's kind of name; when `strict`, without a carriage return. */
  ghost predicate Tidy(t: Token, strict: bool) {
    && (t.TextToken? || TidyTag(t))
    && (strict ==> (t.TextToken? ==> '\r' !in t.text) && (t.StartTag? && t.href.Some? ==> '\r' !in t.href.value))
  }

  ghost predicate AllTidy(ts: seq<Token>, strict: bool) {
    forall i :: 0 <= i < |ts| ==> Tidy(ts[i], strict)
  }

  // ---------- The stream with its texts merged ----------

  datatype Seg = Seg(tag: Token, text: string)

  /** A leading text, and then tags, each with the text behind it. */
  datatype Html = Html(lead: string, segs: seq<Seg>)

  function Normal(ts: seq<Token>): Html {
    if ts == [] then Html("", [])
    else
      var rest := Normal(ts[1..]);
      if ts[0].TextToken? then Html(ts[0].text + rest.lead, rest.segs)
      else Html("", [Seg(ts[0], rest.lead)] + rest.segs)
  }

  ghost predicate AllTags(segs: seq<Seg>) {
    forall i :: 0 <= i < |segs| ==> !segs[i].tag.TextToken?
  }

  ghost predicate TidySeg(seg: Seg, strict: bool) {
    !seg.tag.TextToken? && Tidy(seg.tag, strict) && (strict ==> '\r' !in seg.text)
  }

  ghost predicate TidySegs(segs: seq<Seg>, strict: bool) {
    forall i :: 0 <= i < |segs| ==> TidySeg(segs[i], strict)
  }

  ghost predicate TidyHtml(x: Html, strict: bool) {
    TidySegs(x.segs, strict) && (strict ==> '\r' !in x.lead)
  }

  /** What the tokenizer makes of the texts and addresses of a printed stream. */
  function ReadSegs(segs: seq<Seg>): (r: seq<Seg>)
    ensures |r| == |segs| && forall i :: 0 <= i < |r| ==> r[i] == Seg(ReadBack(segs[i].tag), Newlines(segs[i].text))
  {
    seq(|segs|, i requires 0 <= i < |segs| => Seg(ReadBack(segs[i].tag), Newlines(segs[i].text)))
  }

  function ReadHtml(x: Html): Html {
    Html(Newlines(x.lead), ReadSegs(x.segs))
  }

  /** Without carriage returns it reads them as they are. */
  lemma ReadsAsItself(x: Html)
    requires TidyHtml(x, true)
    ensures ReadHtml(x) == x
  {
    NewlinesKept(x.lead);
    forall i | 0 <= i < |x.segs| ensures ReadSegs(x.segs)[i] == x.segs[i] {
      NewlinesKept(x.segs[i].text);
      if x.segs[i].tag.StartTag? && x.segs[i].tag.href.Some? {
        NewlinesKept(x.segs[i].tag.href.value);
      }
    }
  }

  function PrintSegs(segs: seq<Seg>): string {
    if segs == [] then "" else PrintToken(segs[0].tag) + (Escape(segs[0].text) + PrintSegs(segs[1..]))
  }

  function PrintHtml(x: Html): string {
    Escape(x.lead) + PrintSegs(x.segs)
  }

  function TextTokens(s: string): seq<Token> {
    if s == "" then [] else [TextToken(s)]
  }

  function SegTokens(segs: seq<Seg>): seq<Token> {
    if segs == [] then [] else [segs[0].tag] + (TextTokens(segs[0].text) + SegTokens(segs[1..]))
  }

  function HtmlTokens(x: Html): seq<Token> {
    TextTokens(x.lead) + SegTokens(x.segs)
  }

  lemma Regroup(a: string, b: string, c: string)
    ensures a + (b + c) == (a + b) + c
  {
  }

  lemma NormalText(t: string, rest: Html)
    ensures PrintHtml(Html(t + rest.lead, rest.segs)) == Escape(t) + PrintHtml(rest)
  {
    EscapeInTurn(t, rest.lead);
    Regroup(Escape(t), Escape(rest.lead), PrintSegs(rest.segs));
  }

  lemma NormalTag(tag: Token, rest: Html)
    ensures PrintHtml(Html("", [Seg(tag, rest.lead)] + rest.segs)) == PrintToken(tag) + PrintHtml(rest)
  {
    var segs := [Seg(tag, rest.lead)] + rest.segs;
    assert segs[1..] == rest.segs && segs[0] == Seg(tag, rest.lead);
    assert PrintSegs(segs) == PrintToken(tag) + PrintHtml(rest);
    assert "" + PrintSegs(segs) == PrintSegs(segs);
  }

  lemma {:induction false} PrintNormal(ts: seq<Token>)
    ensures Print(ts) == PrintHtml(Normal(ts))
  {
    if ts != [] {
      PrintNormal(ts[1..]);
      if ts[0].TextToken? {
        NormalText(ts[0].text, Normal(ts[1..]));
      } else {
        NormalTag(ts[0], Normal(ts[1..]));
      }
    }
  }

  lemma {:induction false} NormalIsTidy(ts: seq<Token>, strict: bool)
    requires AllTidy(ts, strict)
    ensures TidyHtml(Normal(ts), strict)
  {
    if ts != [] {
      assert Tidy(ts[0], strict);
      NormalIsTidy(ts[1..], strict);
    }
  }

  lemma TagOpensAngle(t: Token)
    requires !t.TextToken?
    ensures PrintToken(t) != "" && PrintToken(t)[0] == '<' && PrintToken(t)[|PrintToken(t)| - 1] == '>'
  {
  }

  lemma SegsOpenAngle(segs: seq<Seg>)
    requires AllTags(segs)
    ensures PrintSegs(segs) == "" || PrintSegs(segs)[0] == '<'
  {
    if segs != [] {
      TagOpensAngle(segs[0].tag);
    }
  }

  lemma {:induction false} SegsTokenize(segs: seq<Seg>)
    requires TidySegs(segs, false)
    ensures Tokenize(PrintSegs(segs)) == SegTokens(ReadSegs(segs))
  {
    if segs != [] {
      SegsTokenize(segs[1..]);
      LeadTokenizes(segs[0].text, segs[1..]);
      assert TidySeg(segs[0], false) && ReadSegs(segs)[1..] == ReadSegs(segs[1..]);
      TagTokenizes(segs[0].tag, Escape(segs[0].text) + PrintSegs(segs[1..]));
    }
  }

  lemma LeadTokenizes(s: string, segs: seq<Seg>)
    requires TidySegs(segs, false) && Tokenize(PrintSegs(segs)) == SegTokens(ReadSegs(segs))
    ensures Tokenize(Escape(s) + PrintSegs(segs)) == TextTokens(Newlines(s)) + SegTokens(ReadSegs(segs))
  {
    SegsOpenAngle(segs);
    if s == "" {
      assert Escape(s) + PrintSegs(segs) == PrintSegs(segs);
    } else {
      NewlinesAreSome(s);
      TextTokenizes(s, PrintSegs(segs));
    }
  }

  lemma {:induction false} NewlinesAreSome(s: string)
    requires s != ""
    ensures Newlines(s) != ""
  {
    if |s| > 1 {
      NewlinesAreSome(s[1..]);
    }
  }

  /** A printed stream reads as itself, with adjoining texts merged and newlines for carriage returns. */
  lemma HtmlTokenizes(x: Html)
    requires TidyHtml(x, false)
    ensures Tokenize(PrintHtml(x)) == HtmlTokens(ReadHtml(x))
  {
    SegsTokenize(x.segs);
    LeadTokenizes(x.lead, x.segs);
  }

  // ---------- Trimming a printed stream ----------

  function Trimmed(x: Html, space: char -> bool): Html {
    if x.segs == [] then Html(Text.Trim(x.lead, space), [])
    else
      var last := |x.segs| - 1;
      Html(Text.TrimLeft(x.lead, space), x.segs[..last] + [x.segs[last].(text := Text.TrimRight(x.segs[last].text, space))])
  }

  lemma {:induction false} TrimLeftBefore(a: string, z: string, space: char -> bool)
    requires z != "" && !space(z[0])
    ensures Text.TrimLeft(a + z, space) == Text.TrimLeft(a, space) + z
  {
    if a == "" {
      assert a + z == z;
    } else {
      assert (a + z)[1..] == a[1..] + z;
      TrimLeftBefore(a[1..], z, space);
    }
  }

  lemma {:induction false} TrimRightBehind(z: string, a: string, space: char -> bool)
    requires z != "" && !space(z[|z| - 1])
    ensures Text.TrimRight(z + a, space) == z + Text.TrimRight(a, space)
  {
    if a == "" {
      assert z + a == z;
    } else {
      assert (z + a)[..|z + a| - 1] == z + a[..|a| - 1];
      TrimRightBehind(z, a[..|a| - 1], space);
    }
  }

  lemma {:induction false} SegsInTurn(a: seq<Seg>, b: seq<Seg>)
    ensures PrintSegs(a + b) == PrintSegs(a) + PrintSegs(b)
    ensures SegTokens(a + b) == SegTokens(a) + SegTokens(b)
  {
    if a == [] {
      assert a + b == b;
    } else {
      assert (a + b)[1..] == a[1..] + b;
      SegsInTurn(a[1..], b);
    }
  }

  lemma LastSeg(front: seq<Seg>, last: Seg)
    ensures PrintSegs(front + [last]) == PrintSegs(front) + PrintToken(last.tag) + Escape(last.text)
    ensures SegTokens(front + [last]) == SegTokens(front) + [last.tag] + TextTokens(last.text)
  {
    SegsInTurn(front, [last]);
    assert [last][1..] == [];
    assert PrintSegs([last]) == PrintToken(last.tag) + (Escape(last.text) + "");
    assert SegTokens([last]) == [last.tag] + (TextTokens(last.text) + []);
  }

  lemma TrimEnds(a: string, m: string, z: string, space: char -> bool)
    requires m != "" && !space(m[0]) && !space(m[|m| - 1])
    ensures Text.Trim(a + (m + z), space) == Text.TrimLeft(a, space) + (m + Text.TrimRight(z, space))
  {
    TrimLeftBefore(a, m + z, space);
    var left := Text.TrimLeft(a, space);
    Regroup(left, m, z);
    assert (left + m)[|left + m| - 1] == m[|m| - 1];
    TrimRightBehind(left + m, z, space);
    Regroup(left, m, Text.TrimRight(z, space));
  }

  /** What stands between the leading text and the last one begins and ends with an angle. */
  function Middle(front: seq<Seg>, tag: Token): string {
    PrintSegs(front) + PrintToken(tag)
  }

  lemma MiddleEnds(front: seq<Seg>, tag: Token)
    requires AllTags(front) && !tag.TextToken?
    ensures var m := Middle(front, tag); m != "" && m[0] == '<' && m[|m| - 1] == '>'
  {
    SegsOpenAngle(front);
    TagOpensAngle(tag);
    assert Middle(front, tag)[|Middle(front, tag)| - 1] == PrintToken(tag)[|PrintToken(tag)| - 1];
  }

  lemma TrimBetween(lead: string, front: seq<Seg>, last: Seg, space: char -> bool)
    requires SpaceLaws(space) && AllTags(front) && !last.tag.TextToken?
    ensures Text.Trim(Escape(lead) + PrintSegs(front + [last]), space)
         == Escape(Text.TrimLeft(lead, space)) + PrintSegs(front + [last.(text := Text.TrimRight(last.text, space))])
  {
    LastSeg(front, last);
    LastSeg(front, last.(text := Text.TrimRight(last.text, space)));
    MiddleEnds(front, last.tag);
    TrimLeftEscape(lead, space);
    TrimRightEscape(last.text, space);
    TrimEnds(Escape(lead), Middle(front, last.tag), Escape(last.text), space);
  }

  lemma TrimLeadOnly(lead: string, space: char -> bool)
    requires SpaceLaws(space)
    ensures Text.Trim(Escape(lead) + "", space) == Escape(Text.Trim(lead, space)) + ""
  {
    TrimLeftEscape(lead, space);
    assert Escape(lead) + "" == Escape(lead);
    TrimRightEscape(Text.TrimLeft(lead, space), space);
  }

  /** Trimming the string trims the texts outside all tags. */
  lemma TrimPrints(x: Html, space: char -> bool)
    requires SpaceLaws(space) && AllTags(x.segs)
    ensures Text.Trim(PrintHtml(x), space) == PrintHtml(Trimmed(x, space))
  {
    if x.segs == [] {
      TrimLeadOnly(x.lead, space);
    } else {
      var last := |x.segs| - 1;
      assert x.segs == x.segs[..last] + [x.segs[last]];
      TrimBetween(x.lead, x.segs[..last], x.segs[last], space);
    }
  }
}
