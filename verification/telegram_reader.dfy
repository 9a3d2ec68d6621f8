/** The reader (internal/transport/telegram format, plainFromHTML) over token streams. */
module TelegramReader {
  import opened Options
  import opened Telegram
  import opened TelegramTokens
  import Text

  // ---------- Runs ----------

  lemma {:induction false} RunInTurn(r: Reading, a: seq<Token>, b: seq<Token>)
    ensures Run(r, a + b) == Run(Run(r, a), b)
    decreases |a|
  {
    if a == [] {
      assert a + b == b;
    } else {
      assert (a + b)[1..] == a[1..] + b;
      RunInTurn(Step(r, a[0]), a[1..], b);
    }
  }

  lemma {:induction false} Utf16InTurn(a: string, b: string)
    ensures Utf16(a + b) == Utf16(a) + Utf16(b)
  {
    if a == "" {
      assert a + b == b;
    } else {
      assert (a + b)[1..] == a[1..] + b;
      Utf16InTurn(a[1..], b);
    }
  }

  lemma WroteInTurn(r: Reading, a: string, b: string)
    ensures Wrote(Wrote(r, a), b) == Wrote(r, a + b) && Wrote(r, "") == r
  {
    Utf16InTurn(a, b);
    assert r.b + a + b == r.b + (a + b) && r.b + "" == r.b;
  }

  lemma RunText(r: Reading, s: string)
    ensures Run(r, TextTokens(s)) == Wrote(r, s)
  {
    WroteInTurn(r, "", "");
    if s != "" {
      assert Run(Wrote(r, s), []) == Wrote(r, s);
      assert TextTokens(s)[1..] == [];
    }
  }

  lemma RunHtml(r: Reading, x: Html)
    ensures Run(r, HtmlTokens(x)) == Run(Wrote(r, x.lead), SegTokens(x.segs))
  {
    RunInTurn(r, TextTokens(x.lead), SegTokens(x.segs));
    RunText(r, x.lead);
  }

  lemma RunSeg(r: Reading, tag: Token, rest: Html)
    ensures Run(r, SegTokens([Seg(tag, rest.lead)] + rest.segs)) == Run(Step(r, tag), HtmlTokens(rest))
  {
    var segs := [Seg(tag, rest.lead)] + rest.segs;
    assert segs[1..] == rest.segs && segs[0] == Seg(tag, rest.lead);
    assert SegTokens(segs) == [tag] + HtmlTokens(rest);
    assert ([tag] + HtmlTokens(rest))[1..] == HtmlTokens(rest);
  }

  /** Merging adjoining texts changes nothing for the reader. */
  lemma {:induction false} RunNormal(r: Reading, ts: seq<Token>)
    ensures Run(r, ts) == Run(r, HtmlTokens(Normal(ts)))
    decreases |ts|
  {
    if ts == [] {
      assert HtmlTokens(Normal(ts)) == [];
    } else {
      var rest := Normal(ts[1..]);
      RunNormal(Step(r, ts[0]), ts[1..]);
      RunHtml(r, Normal(ts));
      if ts[0].TextToken? {
        RunHtml(Wrote(r, ts[0].text), rest);
        WroteInTurn(r, ts[0].text, rest.lead);
      } else {
        WroteInTurn(r, "", "");
        RunSeg(r, ts[0], rest);
      }
    }
  }

  // ---------- Text in front moves everything behind it ----------

  function Shifted(entities: seq<Entity>, by': int): (r: seq<Entity>)
    ensures |r| == |entities|
    ensures forall i :: 0 <= i < |r| ==> r[i] == entities[i].(offset := entities[i].offset + by')
  {
    seq(|entities|, i requires 0 <= i < |entities| => entities[i].(offset := entities[i].offset + by'))
  }

  function LinksBehind(p: string, links: seq<OpenLink>): (r: seq<OpenLink>)
    ensures |r| == |links|
    ensures forall i :: 0 <= i < |r| ==> r[i] == links[i].(from := links[i].from + |p|)
  {
    seq(|links|, i requires 0 <= i < |links| => links[i].(from := links[i].from + |p|))
  }

  /** The reading `r` with `p` in front of its text. */
  function Behind(p: string, r: Reading): Reading {
    Reading(p + r.b, Utf16(p) + r.n, Shifted(r.entities, Utf16(p)), if r.start < 0 then r.start else r.start + Utf16(p), r.kind,
            LinksBehind(p, r.links))
  }

  lemma WroteBehind(p: string, r: Reading, t: string)
    ensures Wrote(Behind(p, r), t) == Behind(p, Wrote(r, t))
  {
    assert p + r.b + t == p + (r.b + t);
  }

  lemma LinkClosedBehind(p: string, r: Reading)
    requires forall i :: 0 <= i < |r.links| ==> r.links[i].from <= |r.b|
    ensures LinkClosed(Behind(p, r)) == Behind(p, LinkClosed(r))
  {
    if r.links != [] {
      var last := |r.links| - 1;
      var l := r.links[last];
      var popped := r.(links := r.links[..last]);
      assert (p + r.b)[l.from + |p|..] == r.b[l.from..];
      assert LinksBehind(p, r.links)[..last] == LinksBehind(p, r.links[..last]);
      assert Behind(p, r).(links := LinksBehind(p, r.links)[..last]) == Behind(p, popped);
      WroteBehind(p, popped, Address(l.href));
    }
  }

  lemma MonoClosedBehind(p: string, r: Reading)
    ensures MonoClosed(Behind(p, r)) == Behind(p, MonoClosed(r))
  {
    if r.start >= 0 && r.n > r.start {
      var e := Entity(r.kind, r.start, r.n - r.start);
      assert Shifted(r.entities + [e], Utf16(p)) == Shifted(r.entities, Utf16(p)) + [e.(offset := e.offset + Utf16(p))];
    }
  }

  /** What the reader keeps true: its length counts its text, and its links and its open element began
      inside it. */
  ghost predicate Sound(r: Reading) {
    && r.n == Utf16(r.b) && -1 <= r.start <= r.n
    && forall i :: 0 <= i < |r.links| ==> r.links[i].from <= |r.b|
  }

  lemma StepIsSound(r: Reading, t: Token)
    requires Sound(r)
    ensures Sound(Step(r, t))
  {
    match t
    case TextToken(text) => Utf16InTurn(r.b, text);
    case StartTag(name, href) =>
    case EndTag(name) =>
      if r.links != [] {
        Utf16InTurn(r.b, Address(r.links[|r.links| - 1].href));
      }
  }

  lemma StepBehind(p: string, r: Reading, t: Token)
    requires Sound(r)
    ensures Step(Behind(p, r), t) == Behind(p, Step(r, t))
  {
    match t
    case TextToken(text) => WroteBehind(p, r, text);
    case StartTag(name, href) =>
      var l := OpenLink(href.GetOr(""), |r.b|);
      assert LinksBehind(p, r.links + [l]) == LinksBehind(p, r.links) + [l.(from := l.from + |p|)];
    case EndTag(name) =>
      MonoClosedBehind(p, r);
      LinkClosedBehind(p, r);
  }

  lemma {:induction false} RunBehind(p: string, r: Reading, ts: seq<Token>)
    requires Sound(r)
    ensures Run(Behind(p, r), ts) == Behind(p, Run(r, ts))
    decreases |ts|
  {
    if ts != [] {
      StepIsSound(r, ts[0]);
      StepBehind(p, r, ts[0]);
      RunBehind(p, Step(r, ts[0]), ts[1..]);
    }
  }

  lemma StartBehind(p: string, t: string)
    ensures Wrote(START, p + t) == Behind(p, Wrote(START, t)) && Sound(Wrote(START, t))
  {
    Utf16InTurn(p, t);
    assert "" + (p + t) == p + ("" + t) && "" + t == t;
  }

  // ---------- Trimming, for the reader ----------

  ghost predicate AllSpace(s: string, space: char -> bool) {
    forall c :: c in s ==> space(c)
  }

  /** The texts taken off the front and the back are space, and are all the trimmed string loses. */
  lemma TrimmedRun(x: Html, space: char -> bool) returns (p: string, q: string)
    ensures AllSpace(p, space) && AllSpace(q, space)
    ensures Run(START, HtmlTokens(x)) == Wrote(Behind(p, Run(START, HtmlTokens(Trimmed(x, space)))), q)
  {
    var left := Text.TrimLeft(x.lead, space);
    p := x.lead[..|x.lead| - |left|];
    assert x.lead == p + left;
    RunHtml(START, x);
    RunHtml(START, Trimmed(x, space));
    if x.segs == [] {
      q := TrimmedLead(p, left, space);
    } else {
      q := TrimmedLast(p, left, x.segs, space);
    }
  }

  lemma TrimmedLead(p: string, left: string, space: char -> bool) returns (q: string)
    ensures AllSpace(q, space)
    ensures Run(Wrote(START, p + left), []) == Wrote(Behind(p, Run(Wrote(START, Text.TrimRight(left, space)), [])), q)
  {
    var right := Text.TrimRight(left, space);
    q := left[|right|..];
    assert left == right + q && p + left == p + right + q;
    WroteInTurn(START, p + right, q);
    StartBehind(p, right);
  }

  lemma TrimmedLast(p: string, left: string, segs: seq<Seg>, space: char -> bool) returns (q: string)
    requires segs != []
    ensures AllSpace(q, space)
    ensures var last := |segs| - 1;
      Run(Wrote(START, p + left), SegTokens(segs)) ==
      Wrote(Behind(p, Run(Wrote(START, left), SegTokens(segs[..last] + [segs[last].(text := Text.TrimRight(segs[last].text, space))]))), q)
  {
    var front, last := segs[..|segs| - 1], segs[|segs| - 1];
    assert segs == front + [last];
    var right := Text.TrimRight(last.text, space);
    q := last.text[|right|..];
    assert last.text == right + q;
    StartBehind(p, left);
    RunLast(Wrote(START, p + left), front, last.tag, right, q);
    RunBehind(p, Wrote(START, left), SegTokens(front + [last.(text := right)]));
  }

  lemma RunLast(r: Reading, front: seq<Seg>, tag: Token, text: string, q: string)
    ensures Run(r, SegTokens(front + [Seg(tag, text + q)])) == Wrote(Run(r, SegTokens(front + [Seg(tag, text)])), q)
  {
    LastSeg(front, Seg(tag, text));
    LastSeg(front, Seg(tag, text + q));
    var before := SegTokens(front) + [tag];
    RunInTurn(r, before, TextTokens(text));
    RunInTurn(r, before, TextTokens(text + q));
    RunText(Run(r, before), text);
    RunText(Run(r, before), text + q);
    WroteInTurn(Run(r, before), text, q);
  }

  // ---------- Entities of any run ----------

  /** In order, apart, not empty, and within `n`. */
  ghost predicate Apart(entities: seq<Entity>, n: int) {
    && (forall i :: 0 <= i < |entities| ==> entities[i].length > 0 && 0 <= entities[i].offset && entities[i].offset + entities[i].length <= n)
    && (forall i, j :: 0 <= i < j < |entities| ==> entities[i].offset + entities[i].length <= entities[j].offset)
  }

  ghost predicate EntityInv(r: Reading) {
    Sound(r) && Apart(r.entities, if r.start < 0 then r.n else r.start)
  }

  lemma StepEntities(r: Reading, t: Token)
    requires EntityInv(r)
    ensures EntityInv(Step(r, t))
  {
    StepIsSound(r, t);
  }

  /** Whatever it reads, the reader's entities are disjoint, in order and within the text it returns,
      counted in UTF-16 units. */
  lemma {:induction false} EntitiesAreApart(r: Reading, ts: seq<Token>)
    requires EntityInv(r)
    ensures EntityInv(Run(r, ts))
    decreases |ts|
  {
    if ts != [] {
      StepEntities(r, ts[0]);
      EntitiesAreApart(Step(r, ts[0]), ts[1..]);
    }
  }
}
