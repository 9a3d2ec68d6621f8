/** Native tool calls printed in canonical form are read back by the parser (internal/model native). */
module NativeRoundTrip {
  import opened Options
  import opened Native
  import Text
  import L = NativeLaws

  // ---------- Where a sentinel can stand in joined text ----------

  /** No sentinel stands across the seam of `a` and `b`. */
  ghost predicate Seam(a: string, b: string) {
    a == "" || b == "" || b[0] == '<' || b[0] == '\n' || a[|a| - 1] == '\n' || a[|a| - 1] == '>' || '<' !in a
  }

  lemma NotAcross(a: string, b: string, t: string, i: nat)
    requires IsSentinel(t) && Seam(a, b) && HasAt(a + b, t, i)
    ensures i + |t| <= |a| || |a| <= i
  {
    L.CharsAt(a + b, t, i);
    assert b != "" ==> (a + b)[|a|] == b[0];
    assert a != "" ==> (a + b)[|a| - 1] == a[|a| - 1];
  }

  lemma InJoin(a: string, b: string, t: string, i: nat)
    requires IsSentinel(t) && Seam(a, b) && HasAt(a + b, t, i)
    ensures HasAt(a, t, i) || (|a| <= i && HasAt(b, t, i - |a|))
  {
    NotAcross(a, b, t, i);
    if |a| <= i {
      assert (a + b)[|a|..] == b;
      L.InSuffix(a + b, t, |a|, i - |a|);
    } else {
      assert (a + b)[..|a|] == a;
      L.InPrefix(a + b, t, |a|, i);
    }
  }

  lemma JoinFree(a: string, b: string, t: string)
    requires IsSentinel(t) && Seam(a, b) && !Contains(a, t) && !Contains(b, t)
    ensures !Contains(a + b, t)
  {
    forall i: nat ensures !HasAt(a + b, t, i) {
      if HasAt(a + b, t, i) {
        InJoin(a, b, t, i);
      }
    }
  }

  lemma AngleAt(s: string, t: string, i: nat)
    requires IsSentinel(t) && HasAt(s, t, i)
    ensures '<' in s
  {
    L.CharsAt(s, t, i);
    assert s[i] == '<';
  }

  lemma NoAngleFree(s: string, t: string)
    requires IsSentinel(t) && '<' !in s
    ensures !Contains(s, t)
  {
    forall i: nat ensures !HasAt(s, t, i) {
      if HasAt(s, t, i) {
        AngleAt(s, t, i);
      }
    }
  }

  lemma HoldsOnlyItself(x: string, t: string, i: nat)
    requires IsSentinel(x) && IsSentinel(t) && HasAt(x, t, i)
    ensures x == t
  {
    L.CharsAt(x, t, i);
    assert x[i] == '<' && x[i + |t| - 1] == '>';
    assert i == 0 && |t| == |x| && x[0..|x|] == x;
  }

  lemma OtherSentinelFree(x: string, t: string)
    requires IsSentinel(x) && IsSentinel(t) && x != t
    ensures !Contains(x, t)
  {
    forall i: nat ensures !HasAt(x, t, i) {
      if HasAt(x, t, i) {
        HoldsOnlyItself(x, t, i);
      }
    }
  }

  /** A sentinel after text that does not hold it is found right there. */
  lemma FoundThere(a: string, t: string, b: string)
    requires IsSentinel(t) && !Contains(a, t)
    ensures Index(a + t + b, t) == Some(|a|)
  {
    var s := a + t + b;
    IndexIs(s, t);
    assert s[|a|..|a| + |t|] == t;
    assert HasAt(s, t, |a|);
    forall i: nat | i < |a| ensures !HasAt(s, t, i) {
      assert s == a + (t + b);
      if HasAt(a + (t + b), t, i) {
        InJoin(a, t + b, t, i);
      }
    }
    NotNone(s, t, |a|);
  }

  lemma NotNone(s: string, t: string, i: nat)
    requires HasAt(s, t, i)
    ensures Contains(s, t)
  {
  }

  lemma TailFree(s: string, t: string)
    requires s != "" && !Contains(s, t)
    ensures !Contains(s[1..], t)
  {
    forall i: nat ensures !HasAt(s[1..], t, i) {
      L.InSuffix(s, t, 1, i);
      assert !HasAt(s, t, 1 + i);
    }
  }

  lemma NotAtStart(a: string, t: string, b: string)
    requires IsSentinel(t) && !Contains(a, t) && a != ""
    ensures !HasAt(a + t + b, t, 0)
  {
    FoundThere(a, t, b);
    IndexIs(a + t + b, t);
  }

  lemma {:induction false} StripFree(s: string, t: string)
    requires IsSentinel(t) && !Contains(s, t)
    ensures Strip(s, t) == s
  {
    if s != "" {
      assert !HasAt(s, t, 0);
      TailFree(s, t);
      StripFree(s[1..], t);
    }
  }

  /** Stripping removes the sentinel and goes on behind it. */
  lemma {:induction false} StripThere(a: string, t: string, b: string)
    requires IsSentinel(t) && !Contains(a, t)
    ensures Strip(a + t + b, t) == a + Strip(b, t)
  {
    var s := a + t + b;
    if a != "" {
      NotAtStart(a, t, b);
    }
    if a == "" {
      assert s == t + b && s[|t|..] == b;
    } else {
      assert !HasAt(s, t, 0);
      assert s[1..] == a[1..] + t + b;
      TailFree(a, t);
      StripThere(a[1..], t, b);
      assert [a[0]] + (a[1..] + Strip(b, t)) == a + Strip(b, t);
    }
  }

  // ---------- Canonical print ----------

  datatype Printed<A> = Printed(name: string, argsText: string, args: A)

  /** The fence around the arguments: backticks, the tag of the opening one, and a newline. */
  datatype Fencing = Fencing(fence: string, tag: string, newline: string)

  const JSON_FENCE := Fencing("```", "json\n", "\n")

  ghost predicate LawfulFence(f: Fencing, space: char -> bool) {
    && f.fence != "" && (forall c :: c in f.fence ==> c == '`' && !space(c))
    && f.tag != "" && f.tag[0] != '`' && !space(f.tag[0]) && f.tag[|f.tag| - 1] == '\n' && '{' !in f.tag && '<' !in f.tag
    && |f.newline| == 1 && (forall c :: c in f.newline ==> c == '\n' && space(c)) && !space('}')
  }

  /** What Unicode calls space, of the characters that matter. */
  ghost predicate SpaceLaws(space: char -> bool) {
    space('\n') && !space('`') && !space('}') && !space('j')
  }

  lemma JsonFenceIsLawful(space: char -> bool)
    requires SpaceLaws(space)
    ensures LawfulFence(JSON_FENCE, space)
  {
  }

  /** What splitNativeName leaves of a printed body behind the name. */
  function FencedArgs<A>(f: Fencing, p: Printed<A>): string {
    f.fence + (f.tag + p.argsText + f.newline) + f.fence
  }

  function Body<A>(f: Fencing, p: Printed<A>): string {
    p.name + (f.newline + FencedArgs(f, p))
  }

  function Print<A>(syn: Syntax, f: Fencing, p: Printed<A>): string {
    syn.callBegin + syn.prefix + syn.sep + Body(f, p) + syn.callEnd
  }

  function PrintAll<A>(syn: Syntax, f: Fencing, ps: seq<Printed<A>>): string {
    if ps == [] then "" else Print(syn, f, ps[0]) + PrintAll(syn, f, ps[1..])
  }

  function Canonical<A>(syn: Syntax, f: Fencing, preamble: string, ps: seq<Printed<A>>): string {
    preamble + syn.callsBegin + PrintAll(syn, f, ps) + syn.callsEnd
  }

  ghost predicate Free(syn: Syntax, s: string) {
    forall t :: t in L.SentinelSet(syn) ==> !Contains(s, t)
  }

  ghost predicate Printable<A>(syn: Syntax, space: char -> bool, json: Json<A>, p: Printed<A>) {
    && p.name != "" && Text.Trim(p.name, space) == p.name && Free(syn, p.name)
    && '\n' !in p.name && '{' !in p.name && '`' !in p.name
    && p.argsText != "" && p.argsText[0] == '{' && p.argsText[|p.argsText| - 1] == '}' && Free(syn, p.argsText)
    && json.decode(p.argsText) == Some(p.args)
  }

  function CallsOf<A>(ps: seq<Printed<A>>, n: nat): seq<Call<A>> {
    if ps == [] then [] else [CallOf(ps[0], n)] + CallsOf(ps[1..], n + 1)
  }

  lemma FencedArgsFree<A>(syn: Syntax, f: Fencing, space: char -> bool, json: Json<A>, p: Printed<A>, t: string)
    requires Lawful(syn) && LawfulFence(f, space) && Printable(syn, space, json, p) && t in L.SentinelSet(syn)
    ensures !Contains(FencedArgs(f, p), t)
  {
    NoAngleFree(f.fence, t);
    NoAngleFree(f.tag, t);
    NoAngleFree(f.newline, t);
    assert f.newline[0] in f.newline && f.newline[|f.newline| - 1] in f.newline;
    var inner := f.tag + p.argsText + f.newline;
    JoinFree(f.tag, p.argsText, t);
    JoinFree(f.tag + p.argsText, f.newline, t);
    JoinFree(f.fence, inner, t);
    EndsWith(f.fence + (f.tag + p.argsText), f.newline);
    assert f.fence + inner == f.fence + (f.tag + p.argsText) + f.newline;
    JoinFree(f.fence + inner, f.fence, t);
  }

  lemma BodyIsFree<A>(syn: Syntax, f: Fencing, space: char -> bool, json: Json<A>, p: Printed<A>, t: string)
    requires Lawful(syn) && LawfulFence(f, space) && Printable(syn, space, json, p) && t in L.SentinelSet(syn)
    ensures !Contains(Body(f, p), t)
  {
    FencedArgsFree(syn, f, space, json, p, t);
    NoAngleFree(f.newline, t);
    assert f.newline[0] in f.newline;
    JoinFree(f.newline, FencedArgs(f, p), t);
    JoinFree(p.name, f.newline + FencedArgs(f, p), t);
  }

  // ---------- Reading one printed body ----------

  lemma TrimNone(s: string, p: char -> bool)
    requires s != "" && !p(s[0]) && !p(s[|s| - 1])
    ensures Text.Trim(s, p) == s
  {
    Text.TrimAround("", s, "", p);
    assert "" + s + "" == s;
  }

  lemma TrimmedEnds(s: string, p: char -> bool)
    requires s != "" && Text.Trim(s, p) == s
    ensures !p(s[0]) && !p(s[|s| - 1])
  {
    var left := Text.TrimLeft(s, p);
    assert |Text.TrimRight(left, p)| <= |left| <= |s|;
    assert left == s[0..];
  }

  lemma SplitsAtNewline(name: string, tail: string)
    requires '\n' !in name && '{' !in name && tail != "" && tail[0] == '\n'
    ensures SplitName(name + tail) == (name, tail[1..])
  {
    var body := name + tail;
    Text.CutBehind(name, tail, '\n');
    Text.CutBehind(name, tail, '{');
    assert body[..|name|] == name && body[|name| + 1..] == tail[1..];
  }

  lemma SanitizesToItself(space: char -> bool, name: string)
    requires name != "" && Text.Trim(name, space) == name && '`' !in name
    ensures SanitizeName(space, name) == name
  {
    assert name[0] in name && name[|name| - 1] in name;
    TrimNone(name, Backtick);
  }

  lemma BodySplits<A>(syn: Syntax, f: Fencing, space: char -> bool, json: Json<A>, p: Printed<A>)
    requires LawfulFence(f, space) && Printable(syn, space, json, p)
    ensures Text.Trim(Body(f, p), space) == Body(f, p) && SplitName(Body(f, p)) == (p.name, FencedArgs(f, p))
    ensures SanitizeName(space, p.name) == p.name
  {
    var tail := f.newline + FencedArgs(f, p);
    assert f.newline[0] in f.newline && f.fence[|f.fence| - 1] in f.fence;
    assert tail[0] == f.newline[0] && tail[1..] == FencedArgs(f, p);
    SplitsAtNewline(p.name, tail);
    SanitizesToItself(space, p.name);
    TrimmedEnds(p.name, space);
    EndsWith(f.fence + (f.tag + p.argsText + f.newline), f.fence);
    EndsWith(f.newline, FencedArgs(f, p));
    EndsWith(p.name, tail);
    TrimNone(Body(f, p), space);
  }

  lemma EndsWith(a: string, b: string)
    requires b != ""
    ensures (a + b)[|a + b| - 1] == b[|b| - 1]
  {
  }

  /** The backticks around a fenced text are trimmed off. */
  lemma FenceGoes(fence: string, tag: string, args: string, newline: string)
    requires forall c :: c in fence ==> Backtick(c)
    requires tag != "" && !Backtick(tag[0]) && newline != "" && !Backtick(newline[|newline| - 1])
    ensures Text.Trim(fence + (tag + args + newline) + fence, Backtick) == tag + args + newline
  {
    EndsWith(tag + args, newline);
    assert (tag + args + newline)[0] == tag[0];
    Text.TrimAround(fence, tag + args + newline, fence, Backtick);
  }

  lemma FenceStays(fence: string, inner: string, p: char -> bool)
    requires fence != "" && forall c :: c in fence ==> !p(c)
    ensures Text.Trim(fence + inner + fence, p) == fence + inner + fence
  {
    var whole := fence + inner + fence;
    assert fence[0] in fence && fence[|fence| - 1] in fence;
    EndsWith(fence + inner, fence);
    assert whole[0] == fence[0];
    TrimNone(whole, p);
  }

  lemma NewlineGoes(tag: string, args: string, newline: string, p: char -> bool)
    requires tag != "" && !p(tag[0]) && args != "" && !p(args[|args| - 1]) && forall c :: c in newline ==> p(c)
    ensures Text.Trim(tag + args + newline, p) == tag + args
  {
    EndsWith(tag, args);
    assert tag + args + newline == "" + (tag + args) + newline && (tag + args)[0] == tag[0];
    Text.TrimAround("", tag + args, newline, p);
  }

  lemma StripAllFree(syn: Syntax, s: string)
    requires Lawful(syn) && Free(syn, s)
    ensures StripAll(syn, s) == s
  {
    L.StrippedInTurn(syn, s);
    StripFree(s, syn.callsBegin);
    StripFree(s, syn.callBegin);
    StripFree(s, syn.sep);
    StripFree(s, syn.callEnd);
    StripFree(s, syn.callsEnd);
  }

  lemma ArgsBehindTag<A>(json: Json<A>, tag: string, args: string)
    requires '{' !in tag && args != "" && args[0] == '{'
    ensures ArgsIn(json, tag + args) == json.decode(args)
  {
    Text.CutBehind(tag, args, '{');
    assert (tag + args)[|tag|..] == args;
  }

  lemma ArgsReadThrough<A>(syn: Syntax, space: char -> bool, json: Json<A>, rest: string, inner: string, trimmed: string)
    requires StripAll(syn, rest) == rest && Text.Trim(rest, space) == rest
    requires Text.Trim(rest, Backtick) == inner && Text.Trim(inner, space) == trimmed
    ensures ParseArgs(syn, space, json, rest) == ArgsIn(json, trimmed)
  {
  }

  lemma FencedArgsTrim(f: Fencing, space: char -> bool, args: string)
    requires LawfulFence(f, space) && args != "" && args[|args| - 1] == '}'
    ensures var inner := f.tag + args + f.newline;
      && Text.Trim(f.fence + inner + f.fence, space) == f.fence + inner + f.fence
      && Text.Trim(f.fence + inner + f.fence, Backtick) == inner
      && Text.Trim(inner, space) == f.tag + args
  {
    assert f.newline[0] in f.newline;
    FenceStays(f.fence, f.tag + args + f.newline, space);
    FenceGoes(f.fence, f.tag, args, f.newline);
    NewlineGoes(f.tag, args, f.newline, space);
  }

  lemma FencedArgsRead<A>(syn: Syntax, f: Fencing, space: char -> bool, json: Json<A>, p: Printed<A>)
    requires Lawful(syn) && LawfulFence(f, space) && Printable(syn, space, json, p)
    ensures ParseArgs(syn, space, json, FencedArgs(f, p)) == Some(p.args)
  {
    forall t | t in L.SentinelSet(syn) ensures !Contains(FencedArgs(f, p), t) {
      FencedArgsFree(syn, f, space, json, p, t);
    }
    StripAllFree(syn, FencedArgs(f, p));
    var inner := f.tag + p.argsText + f.newline;
    FencedArgsTrim(f, space, p.argsText);
    ArgsReadThrough(syn, space, json, FencedArgs(f, p), inner, f.tag + p.argsText);
    ArgsBehindTag(json, f.tag, p.argsText);
  }

  lemma BodyIsRead<A>(syn: Syntax, f: Fencing, space: char -> bool, json: Json<A>, p: Printed<A>, n: nat)
    requires Lawful(syn) && LawfulFence(f, space) && Printable(syn, space, json, p)
    ensures ParseBody(syn, space, json, Body(f, p), n) == Some(Call(CallId(n), p.name, p.args))
  {
    BodySplits(syn, f, space, json, p);
    FencedArgsRead(syn, f, space, json, p);
  }

  // ---------- Reading a whole answer ----------

  lemma TerminatorThere(syn: Syntax, body: string, tail: string)
    requires Lawful(syn) && !Contains(body, syn.callEnd) && !Contains(body, syn.callsEnd)
    ensures FirstTerminator(syn, body + syn.callEnd + tail) == Some((|body|, |syn.callEnd|))
  {
    FoundThere(body, syn.callEnd, tail);
    NotBefore(body, syn.callEnd + tail, syn.callsEnd);
    assert body + syn.callEnd + tail == body + (syn.callEnd + tail);
  }

  lemma NotBefore(a: string, b: string, t: string)
    requires IsSentinel(t) && !Contains(a, t) && Seam(a, b)
    ensures Index(a + b, t).Some? ==> Index(a + b, t).value >= |a|
  {
    IndexIs(a + b, t);
    if Index(a + b, t).Some? {
      InJoin(a, b, t, Index(a + b, t).value);
    }
  }

  lemma NextPrinted(syn: Syntax, pre: string, body: string, tail: string)
    requires Lawful(syn) && !Contains(pre, syn.sep) && !Contains(body, syn.callEnd) && !Contains(body, syn.callsEnd)
    ensures Next(syn, pre + syn.sep + (body + syn.callEnd + tail)) == Closed(TrimCallOpen(syn, pre), body, tail)
  {
    var after := body + syn.callEnd + tail;
    var rest := pre + syn.sep + after;
    FoundThere(pre, syn.sep, after);
    assert rest[..|pre|] == pre && rest[|pre| + |syn.sep|..] == after;
    TerminatorThere(syn, body, tail);
    assert after[..|body|] == body && after[|body| + |syn.callEnd|..] == tail;
  }

  lemma SuffixTrims(s: string, t: string)
    ensures TrimSuffix(s + t, t) == s
  {
  }

  /** The call-open tokens go: before a later call all of it, before the first all but the preamble. */
  lemma OpenTrims(syn: Syntax, preamble: string)
    requires Lawful(syn)
    ensures TrimCallOpen(syn, syn.callBegin + syn.prefix) == ""
    ensures TrimCallOpen(syn, preamble + syn.callsBegin + syn.callBegin + syn.prefix) == preamble
  {
    EndsWith(syn.callBegin, syn.prefix);
    EndsWith(preamble + syn.callsBegin + syn.callBegin, syn.prefix);
    SuffixTrims(syn.callBegin, syn.prefix);
    SuffixTrims("", syn.callBegin);
    assert "" + syn.callBegin == syn.callBegin;
    SuffixTrims(preamble + syn.callsBegin + syn.callBegin, syn.prefix);
    SuffixTrims(preamble + syn.callsBegin, syn.callBegin);
    SuffixTrims(preamble, syn.callsBegin);
  }

  lemma OpenIsFree(syn: Syntax, preamble: string)
    requires Lawful(syn) && Free(syn, preamble)
    ensures !Contains(syn.callBegin + syn.prefix, syn.sep)
    ensures !Contains(Lead(syn, preamble), syn.sep)
  {
    OtherSentinelFree(syn.callBegin, syn.sep);
    OtherSentinelFree(syn.callsBegin, syn.sep);
    NoAngleFree(syn.prefix, syn.sep);
    JoinFree(syn.callBegin, syn.prefix, syn.sep);
    JoinFree(preamble, syn.callsBegin, syn.sep);
    JoinFree(preamble + syn.callsBegin, syn.callBegin, syn.sep);
    EndsWith(preamble + syn.callsBegin, syn.callBegin);
    JoinFree(preamble + syn.callsBegin + syn.callBegin, syn.prefix, syn.sep);
  }

  /** One printed call from its separator on, `pre` before it and `tail` behind it. */
  function Printing<A>(syn: Syntax, f: Fencing, pre: string, p: Printed<A>, tail: string): string {
    pre + syn.sep + (Body(f, p) + syn.callEnd + tail)
  }

  function CallOf<A>(p: Printed<A>, n: nat): Call<A> {
    Call(CallId(n), p.name, p.args)
  }

  /** The loop reads one call off `rest`, keeps `kept` and goes on with `tail`. */
  ghost predicate Yields<A>(read: Reader, parse: BodyParser<A>, rest: string, n: nat, kept: string, call: Call<A>, tail: string) {
    read(rest).Closed? && read(rest).kept == kept && read(rest).rest == tail && parse(read(rest).body, n) == Some(call)
  }

  /** The loop reads every printed call, and nothing from the closing sentinel. */
  ghost predicate Understands<A(!new)>(syn: Syntax, f: Fencing, space: char -> bool, json: Json<A>, read: Reader, parse: BodyParser<A>, open: string -> string) {
    && Shrinks(read) && read(syn.callsEnd) == Plain
    && open(syn.callBegin + syn.prefix) == "" && (forall preamble: string :: open(Lead(syn, preamble)) == preamble)
    && forall pre: string, p: Printed<A>, tail: string, n: nat {:trigger Printing(syn, f, pre, p, tail), CallOf(p, n)} ::
         Printable(syn, space, json, p) && !Contains(pre, syn.sep) ==>
           Yields(read, parse, Printing(syn, f, pre, p, tail), n, open(pre), CallOf(p, n), tail)
  }

  /** What stands before the first call's separator. */
  function Lead(syn: Syntax, preamble: string): string {
    preamble + syn.callsBegin + syn.callBegin + syn.prefix
  }

  function Opener(syn: Syntax): string -> string {
    (pre: string) => TrimCallOpen(syn, pre)
  }

  lemma PrintedIsRead<A>(syn: Syntax, f: Fencing, space: char -> bool, json: Json<A>, pre: string, p: Printed<A>, tail: string, n: nat)
    requires Lawful(syn) && LawfulFence(f, space) && Printable(syn, space, json, p) && !Contains(pre, syn.sep)
    ensures Yields(ReaderOf(syn), BodyParserOf(syn, space, json), Printing(syn, f, pre, p, tail), n, TrimCallOpen(syn, pre), CallOf(p, n), tail)
  {
    BodyIsFree(syn, f, space, json, p, syn.callEnd);
    BodyIsFree(syn, f, space, json, p, syn.callsEnd);
    NextPrinted(syn, pre, Body(f, p), tail);
    BodyIsRead(syn, f, space, json, p, n);
  }

  lemma ParserUnderstands<A(!new)>(syn: Syntax, f: Fencing, space: char -> bool, json: Json<A>)
    requires Lawful(syn) && LawfulFence(f, space)
    ensures Understands(syn, f, space, json, ReaderOf(syn), BodyParserOf(syn, space, json), Opener(syn))
  {
    OtherSentinelFree(syn.callsEnd, syn.sep);
    IndexIs(syn.callsEnd, syn.sep);
    OpenTrims(syn, "");
    forall preamble: string ensures Opener(syn)(Lead(syn, preamble)) == preamble {
      OpenTrims(syn, preamble);
    }
    forall pre: string, p: Printed<A>, tail: string, n: nat | Printable(syn, space, json, p) && !Contains(pre, syn.sep)
      ensures Yields(ReaderOf(syn), BodyParserOf(syn, space, json), Printing(syn, f, pre, p, tail), n, Opener(syn)(pre), CallOf(p, n), tail)
    {
      PrintedIsRead(syn, f, space, json, pre, p, tail, n);
    }
  }

  lemma ScanYields<A>(read: Reader, parse: BodyParser<A>, rest: string, n: nat, kept: string, call: Call<A>, tail: string,
                      left: string, calls: seq<Call<A>>)
    requires Shrinks(read) && Yields(read, parse, rest, n, kept, call, tail)
    requires Scan(read, parse, tail, n + 1) == Found(left, calls)
    ensures Scan(read, parse, rest, n) == Found(kept + left, [call] + calls)
  {
  }

  ghost predicate AllPrintable<A>(syn: Syntax, space: char -> bool, json: Json<A>, ps: seq<Printed<A>>) {
    forall i :: 0 <= i < |ps| ==> Printable(syn, space, json, ps[i])
  }

  lemma PrintableParts<A>(syn: Syntax, space: char -> bool, json: Json<A>, ps: seq<Printed<A>>)
    requires AllPrintable(syn, space, json, ps) && ps != []
    ensures Printable(syn, space, json, ps[0]) && AllPrintable(syn, space, json, ps[1..])
  {
    forall i | 0 <= i < |ps[1..]| ensures Printable(syn, space, json, ps[1..][i]) {
      assert ps[1..][i] == ps[i + 1];
    }
  }

  lemma PrintAllFirst<A>(syn: Syntax, f: Fencing, ps: seq<Printed<A>>)
    requires ps != []
    ensures PrintAll(syn, f, ps) + syn.callsEnd
         == Printing(syn, f, syn.callBegin + syn.prefix, ps[0], PrintAll(syn, f, ps[1..]) + syn.callsEnd)
  {
  }

  lemma Regroup(a: string, b: string, c: string, d: string, e: string)
    ensures a + ((b + c) + d + e) == (a + b + c) + d + e
  {
  }

  lemma CanonicalFirst<A>(syn: Syntax, f: Fencing, preamble: string, ps: seq<Printed<A>>)
    requires ps != []
    ensures Canonical(syn, f, preamble, ps)
         == Printing(syn, f, Lead(syn, preamble), ps[0], PrintAll(syn, f, ps[1..]) + syn.callsEnd)
  {
    PrintAllFirst(syn, f, ps);
    Regroup(preamble + syn.callsBegin, syn.callBegin, syn.prefix, syn.sep,
            Body(f, ps[0]) + syn.callEnd + (PrintAll(syn, f, ps[1..]) + syn.callsEnd));
  }

  /** A first call with anything before it, when the rest is read as printed. */
  lemma ScanFrom<A(!new)>(syn: Syntax, f: Fencing, space: char -> bool, json: Json<A>, read: Reader, parse: BodyParser<A>, open: string -> string,
                    content: string, pre: string, kept: string, ps: seq<Printed<A>>, n: nat, tail: string)
    requires Understands(syn, f, space, json, read, parse, open) && ps != [] && Printable(syn, space, json, ps[0])
    requires !Contains(pre, syn.sep) && open(pre) == kept && content == Printing(syn, f, pre, ps[0], tail)
    requires Scan(read, parse, tail, n + 1) == Found(syn.callsEnd, CallsOf(ps[1..], n + 1))
    ensures Scan(read, parse, content, n) == Found(kept + syn.callsEnd, CallsOf(ps, n))
  {
    var call := CallOf(ps[0], n);
    assert Yields(read, parse, content, n, kept, call, tail);
    ScanYields(read, parse, content, n, kept, call, tail, syn.callsEnd, CallsOf(ps[1..], n + 1));
  }

  lemma {:induction false} ScanPrinted<A(!new)>(syn: Syntax, f: Fencing, space: char -> bool, json: Json<A>, read: Reader, parse: BodyParser<A>, open: string -> string,
                                          ps: seq<Printed<A>>, n: nat)
    requires Lawful(syn) && Understands(syn, f, space, json, read, parse, open) && AllPrintable(syn, space, json, ps)
    ensures Scan(read, parse, PrintAll(syn, f, ps) + syn.callsEnd, n) == Found(syn.callsEnd, CallsOf(ps, n))
  {
    assert "" + syn.callsEnd == syn.callsEnd;
    if ps != [] {
      PrintAllFirst(syn, f, ps);
      PrintableParts(syn, space, json, ps);
      OpenIsFree(syn, "");
      ScanPrinted(syn, f, space, json, read, parse, open, ps[1..], n + 1);
      ScanFrom(syn, f, space, json, read, parse, open, PrintAll(syn, f, ps) + syn.callsEnd, syn.callBegin + syn.prefix, "", ps, n,
               PrintAll(syn, f, ps[1..]) + syn.callsEnd);
    }
  }

  lemma ScanAll<A(!new)>(syn: Syntax, f: Fencing, space: char -> bool, json: Json<A>, read: Reader, parse: BodyParser<A>, open: string -> string,
                         content: string, lead: string, tail: string, preamble: string, ps: seq<Printed<A>>)
    requires Lawful(syn) && Understands(syn, f, space, json, read, parse, open) && AllPrintable(syn, space, json, ps) && ps != []
    requires !Contains(lead, syn.sep) && open(lead) == preamble && content == Printing(syn, f, lead, ps[0], tail)
    requires tail == PrintAll(syn, f, ps[1..]) + syn.callsEnd
    ensures Scan(read, parse, content, 0) == Found(preamble + syn.callsEnd, CallsOf(ps, 0))
  {
    PrintableParts(syn, space, json, ps);
    ScanPrinted(syn, f, space, json, read, parse, open, ps[1..], 1);
    ScanFrom(syn, f, space, json, read, parse, open, content, lead, preamble, ps, 0, tail);
  }

  lemma ScanCanonical<A(!new)>(syn: Syntax, f: Fencing, space: char -> bool, json: Json<A>, read: Reader, parse: BodyParser<A>, open: string -> string,
                         preamble: string, ps: seq<Printed<A>>)
    requires Lawful(syn) && Understands(syn, f, space, json, read, parse, open) && AllPrintable(syn, space, json, ps)
    requires Free(syn, preamble) && ps != []
    ensures Scan(read, parse, Canonical(syn, f, preamble, ps), 0) == Found(preamble + syn.callsEnd, CallsOf(ps, 0))
  {
    CanonicalFirst(syn, f, preamble, ps);
    OpenIsFree(syn, preamble);
    ScanAll(syn, f, space, json, read, parse, open, Canonical(syn, f, preamble, ps), Lead(syn, preamble),
            PrintAll(syn, f, ps[1..]) + syn.callsEnd, preamble, ps);
  }

  lemma CanonicalHasSep<A>(syn: Syntax, f: Fencing, preamble: string, ps: seq<Printed<A>>)
    requires Lawful(syn) && Free(syn, preamble) && ps != []
    ensures Index(Canonical(syn, f, preamble, ps), syn.sep).Some?
  {
    CanonicalFirst(syn, f, preamble, ps);
    OpenIsFree(syn, preamble);
    FoundThere(Lead(syn, preamble), syn.sep,
               Body(f, ps[0]) + syn.callEnd + (PrintAll(syn, f, ps[1..]) + syn.callsEnd));
  }

  lemma EndStripped(syn: Syntax, preamble: string)
    requires Lawful(syn) && Free(syn, preamble)
    ensures StripAll(syn, preamble + syn.callsEnd) == preamble
  {
    var s := preamble + syn.callsEnd;
    L.StrippedInTurn(syn, s);
    LeadKept(preamble, syn.callsEnd, syn.callsBegin);
    LeadKept(preamble, syn.callsEnd, syn.callBegin);
    LeadKept(preamble, syn.callsEnd, syn.sep);
    LeadKept(preamble, syn.callsEnd, syn.callEnd);
    StripThere(preamble, syn.callsEnd, "");
    assert preamble + syn.callsEnd + "" == s && preamble + "" == preamble;
  }

  lemma LeadKept(a: string, x: string, t: string)
    requires IsSentinel(x) && IsSentinel(t) && x != t && !Contains(a, t)
    ensures Strip(a + x, t) == a + x
  {
    OtherSentinelFree(x, t);
    JoinFree(a, x, t);
    StripFree(a + x, t);
  }

  /** Nothing printed: both outer sentinels are scrubbed. */
  lemma EmptyPrintStripped(syn: Syntax, preamble: string)
    requires Lawful(syn) && Free(syn, preamble)
    ensures var content := preamble + syn.callsBegin + syn.callsEnd;
      && Index(content, syn.sep).None? && AnyIn(content, syn.Sentinels()) && StripAll(syn, content) == preamble
  {
    var content := preamble + syn.callsBegin + syn.callsEnd;
    OtherSentinelFree(syn.callsBegin, syn.sep);
    OtherSentinelFree(syn.callsEnd, syn.sep);
    JoinFree(preamble, syn.callsBegin, syn.sep);
    JoinFree(preamble + syn.callsBegin, syn.callsEnd, syn.sep);
    IndexIs(content, syn.sep);
    FoundThere(preamble, syn.callsBegin, syn.callsEnd);
    StripThere(preamble, syn.callsBegin, syn.callsEnd);
    OtherSentinelFree(syn.callsEnd, syn.callsBegin);
    StripFree(syn.callsEnd, syn.callsBegin);
    L.StrippedInTurn(syn, content);
    L.StrippedInTurn(syn, preamble + syn.callsEnd);
    LeadKept(preamble, syn.callsEnd, syn.callsBegin);
    EndStripped(syn, preamble);
  }

  lemma ParsedFrom<A>(syn: Syntax, space: char -> bool, parse: BodyParser<A>, content: string, clean: string, calls: seq<Call<A>>, text: string)
    requires syn.sep != "" && Index(content, syn.sep).Some? && Scan(ReaderOf(syn), parse, content, 0) == Found(clean, calls)
    requires StripAll(syn, clean) == text && Text.Trim(text, space) == text
    ensures Parsed(syn, space, parse, content) == Found(text, calls)
  {
  }

  lemma ParsedPlain<A>(syn: Syntax, space: char -> bool, parse: BodyParser<A>, content: string, text: string)
    requires syn.sep != "" && Index(content, syn.sep).None? && AnyIn(content, syn.Sentinels())
    requires StripAll(syn, content) == text && Text.Trim(text, space) == text
    ensures Parsed(syn, space, parse, content) == Found(text, [])
  {
  }

  lemma ScannedCanonical<A(!new)>(syn: Syntax, f: Fencing, space: char -> bool, json: Json<A>, preamble: string, ps: seq<Printed<A>>)
    requires Lawful(syn) && LawfulFence(f, space) && AllPrintable(syn, space, json, ps) && Free(syn, preamble) && ps != []
    ensures Scan(ReaderOf(syn), BodyParserOf(syn, space, json), Canonical(syn, f, preamble, ps), 0) == Found(preamble + syn.callsEnd, CallsOf(ps, 0))
  {
    ParserUnderstands(syn, f, space, json);
    ScanCanonical(syn, f, space, json, ReaderOf(syn), BodyParserOf(syn, space, json), Opener(syn), preamble, ps);
  }

  lemma SomeAreRead<A(!new)>(syn: Syntax, f: Fencing, space: char -> bool, json: Json<A>, preamble: string, ps: seq<Printed<A>>)
    requires Lawful(syn) && LawfulFence(f, space) && AllPrintable(syn, space, json, ps) && ps != []
    requires Free(syn, preamble) && Text.Trim(preamble, space) == preamble
    ensures Parsed(syn, space, BodyParserOf(syn, space, json), Canonical(syn, f, preamble, ps)) == Found(preamble, CallsOf(ps, 0))
  {
    ScannedCanonical(syn, f, space, json, preamble, ps);
    CanonicalHasSep(syn, f, preamble, ps);
    EndStripped(syn, preamble);
    ParsedFrom(syn, space, BodyParserOf(syn, space, json), Canonical(syn, f, preamble, ps), preamble + syn.callsEnd, CallsOf(ps, 0), preamble);
  }

  /** Calls printed in canonical form behind a trimmed preamble that holds no sentinel are read back,
      in order, with the same names and arguments, and the text left is exactly the preamble. */
  lemma CanonicalIsRead<A(!new)>(syn: Syntax, f: Fencing, space: char -> bool, json: Json<A>, preamble: string, ps: seq<Printed<A>>)
    requires Lawful(syn) && LawfulFence(f, space) && AllPrintable(syn, space, json, ps)
    requires Free(syn, preamble) && Text.Trim(preamble, space) == preamble
    ensures Parsed(syn, space, BodyParserOf(syn, space, json), Canonical(syn, f, preamble, ps)) == Found(preamble, CallsOf(ps, 0))
  {
    if ps == [] {
      assert Canonical(syn, f, preamble, ps) == preamble + syn.callsBegin + syn.callsEnd;
      EmptyPrintStripped(syn, preamble);
      ParsedPlain(syn, space, BodyParserOf(syn, space, json), preamble + syn.callsBegin + syn.callsEnd, preamble);
    } else {
      SomeAreRead(syn, f, space, json, preamble, ps);
    }
  }

  /** So it is of the sentinels and the fence the model really writes. */
  lemma NativeCanonicalIsRead<A(!new)>(space: char -> bool, json: Json<A>, preamble: string, ps: seq<Printed<A>>)
    requires SpaceLaws(space) && AllPrintable(NATIVE, space, json, ps)
    requires Free(NATIVE, preamble) && Text.Trim(preamble, space) == preamble
    ensures Parsed(NATIVE, space, BodyParserOf(NATIVE, space, json), Canonical(NATIVE, JSON_FENCE, preamble, ps)) == Found(preamble, CallsOf(ps, 0))
  {
    NativeIsLawful();
    JsonFenceIsLawful(space);
    CanonicalIsRead(NATIVE, JSON_FENCE, space, json, preamble, ps);
  }

  lemma {:induction false} CallsOfAt<A>(ps: seq<Printed<A>>, n: nat, i: nat)
    requires i < |ps|
    ensures |CallsOf(ps, n)| == |ps| && CallsOf(ps, n)[i] == CallOf(ps[i], n + i)
  {
    if |ps| > 1 {
      CallsOfAt(ps[1..], n + 1, if i > 0 then i - 1 else 0);
    }
  }

  // ---------- Ids ----------

  function DecimalValue(s: string): int {
    if s == "" then 0 else 10 * DecimalValue(s[..|s| - 1]) + (s[|s| - 1] as int - '0' as int)
  }

  lemma {:induction false} DecimalNames(n: nat)
    ensures DecimalValue(Text.Decimal(n)) == n
  {
    if n >= 10 {
      DecimalNames(n / 10);
      assert Text.Decimal(n)[..|Text.Decimal(n)| - 1] == Text.Decimal(n / 10);
    } else {
      assert Text.Decimal(n)[..0] == "";
    }
  }

  /** No two calls of an answer share an id. */
  lemma CallIdsAreDistinct(m: nat, n: nat)
    requires CallId(m) == CallId(n)
    ensures m == n
  {
    var lead := CallId(m)[..12];
    assert CallId(m)[12..] == Text.Decimal(m) && CallId(n)[12..] == Text.Decimal(n);
    DecimalNames(m);
    DecimalNames(n);
  }

  ghost predicate Numbered<A>(call: Call<A>, n: nat) {
    call.id == CallId(n) && call.name != ""
  }

  ghost predicate Numbers<A>(parse: BodyParser<A>) {
    forall body: string, n: nat {:trigger parse(body, n)} :: parse(body, n).Some? ==> Numbered(parse(body, n).value, n)
  }

  ghost predicate AllNumbered<A>(calls: seq<Call<A>>, n: nat) {
    forall i :: 0 <= i < |calls| ==> Numbered(calls[i], n + i)
  }

  lemma NumberedMore<A>(call: Call<A>, calls: seq<Call<A>>, n: nat)
    requires Numbered(call, n) && AllNumbered(calls, n + 1)
    ensures AllNumbered([call] + calls, n)
  {
    forall i | 0 <= i < |[call] + calls| ensures Numbered(([call] + calls)[i], n + i) {
      if i > 0 {
        assert Numbered(calls[i - 1], n + 1 + (i - 1));
      }
    }
  }

  lemma {:induction false} ScanNumbers<A>(read: Reader, parse: BodyParser<A>, rest: string, n: nat)
    requires Shrinks(read) && Numbers(parse)
    ensures AllNumbered(Scan(read, parse, rest, n).calls, n)
    decreases |rest|
  {
    match read(rest)
    case Plain =>
    case Open(kept) =>
    case Closed(kept, body, after) =>
      var call := parse(body, n);
      if call.Some? {
        ScanNumbers(read, parse, after, n + 1);
        NumberedMore(call.value, Scan(read, parse, after, n + 1).calls, n);
      } else {
        ScanNumbers(read, parse, after, n);
        assert [] + Scan(read, parse, after, n).calls == Scan(read, parse, after, n).calls;
      }
  }

  lemma BodyIsNumbered<A>(syn: Syntax, space: char -> bool, json: Json<A>, body: string, n: nat)
    ensures ParseBody(syn, space, json, body, n).Some? ==> Numbered(ParseBody(syn, space, json, body, n).value, n)
  {
  }

  lemma ParserNumbers<A>(syn: Syntax, space: char -> bool, json: Json<A>)
    ensures Numbers(BodyParserOf(syn, space, json))
  {
    var parse := BodyParserOf(syn, space, json);
    forall body: string, n: nat ensures parse(body, n).Some? ==> Numbered(parse(body, n).value, n) {
      BodyIsNumbered(syn, space, json, body, n);
    }
  }

  lemma FoundAreScanned<A>(syn: Syntax, space: char -> bool, parse: BodyParser<A>, content: string)
    requires syn.sep != ""
    ensures Parsed(syn, space, parse, content).calls == [] || Parsed(syn, space, parse, content).calls == Scan(ReaderOf(syn), parse, content, 0).calls
  {
  }

  /** Whatever the answer, its calls are numbered from zero without a gap, and each has a name. */
  lemma CallsAreNumbered<A>(syn: Syntax, space: char -> bool, json: Json<A>, content: string)
    requires syn.sep != ""
    ensures AllNumbered(Parsed(syn, space, BodyParserOf(syn, space, json), content).calls, 0)
  {
    ParserNumbers(syn, space, json);
    ScanNumbers(ReaderOf(syn), BodyParserOf(syn, space, json), content, 0);
    FoundAreScanned(syn, space, BodyParserOf(syn, space, json), content);
  }

  // ---------- One pass is not enough for every text ----------

  lemma PrefixHoldsNone(x: string, k: nat, t: string)
    requires IsSentinel(x) && IsSentinel(t) && k < |x|
    ensures !Contains(x[..k], t)
  {
    forall i: nat ensures !HasAt(x[..k], t, i) {
      if HasAt(x[..k], t, i) {
        ClosesAt(x[..k], t, i);
      }
    }
  }

  lemma ClosesAt(s: string, t: string, i: nat)
    requires IsSentinel(t) && HasAt(s, t, i)
    ensures exists j :: 0 < j < |s| && s[j] == '>'
  {
    L.CharsAt(s, t, i);
    assert s[i + |t| - 1] == '>';
  }

  /** A sentinel broken in two around a whole one. */
  function Nested(x: string, k: nat): string
    requires k < |x|
  {
    x[..k] + x + x[k..]
  }

  lemma NestedIsFree(x: string, k: nat, t: string)
    requires IsSentinel(x) && IsSentinel(t) && x != t && 0 < k < |x|
    ensures !Contains(Nested(x, k), t) && Strip(Nested(x, k), t) == Nested(x, k)
  {
    PrefixHoldsNone(x, k, t);
    OtherSentinelFree(x, t);
    NoAngleFree(x[k..], t);
    JoinFree(x[..k], x, t);
    EndsWith(x[..k], x);
    JoinFree(x[..k] + x, x[k..], t);
    StripFree(Nested(x, k), t);
  }

  lemma NestedStrips(x: string, k: nat)
    requires IsSentinel(x) && 0 < k < |x|
    ensures Strip(Nested(x, k), x) == x && Index(Nested(x, k), x) == Some(k)
  {
    var a, b := x[..k], x[k..];
    assert a + b == x;
    PrefixHoldsNone(x, k, x);
    BreaksAround(a, x, b);
  }

  lemma BreaksAround(a: string, x: string, b: string)
    requires IsSentinel(x) && !Contains(a, x) && '<' !in b
    ensures Strip(a + x + b, x) == a + b && Index(a + x + b, x) == Some(|a|)
  {
    StripThere(a, x, b);
    NoAngleFree(b, x);
    StripFree(b, x);
    FoundThere(a, x, b);
  }

  /** Each sentinel is stripped in one pass, so text whose `<` do not all begin a sentinel can leave one
      behind: what is shown of a sentinel split around itself is that sentinel. */
  lemma NestedSentinelSurvives<A>(syn: Syntax, space: char -> bool, parse: BodyParser<A>, k: nat)
    requires Lawful(syn) && !space('<') && !space('>') && 0 < k < |syn.callsEnd|
    ensures Parsed(syn, space, parse, Nested(syn.callsEnd, k)) == Found(syn.callsEnd, [])
  {
    var content := Nested(syn.callsEnd, k);
    NestedIsStripped(syn, content, k);
    NestedIsFree(syn.callsEnd, k, syn.sep);
    IndexIs(content, syn.sep);
    TrimNone(syn.callsEnd, space);
    ParsedPlain(syn, space, parse, content, syn.callsEnd);
  }

  lemma NestedIsStripped(syn: Syntax, content: string, k: nat)
    requires Lawful(syn) && 0 < k < |syn.callsEnd| && content == Nested(syn.callsEnd, k)
    ensures StripAll(syn, content) == syn.callsEnd && AnyIn(content, syn.Sentinels())
  {
    NestedIsFree(syn.callsEnd, k, syn.callsBegin);
    NestedIsFree(syn.callsEnd, k, syn.callBegin);
    NestedIsFree(syn.callsEnd, k, syn.sep);
    NestedIsFree(syn.callsEnd, k, syn.callEnd);
    NestedStrips(syn.callsEnd, k);
    L.StrippedInTurn(syn, content);
    LastIn(content, syn);
  }

  lemma LastIn(s: string, syn: Syntax)
    requires Index(s, syn.callsEnd).Some?
    ensures AnyIn(s, syn.Sentinels())
  {
    assert AnyIn(s, [syn.callsEnd]);
    assert AnyIn(s, [syn.callEnd, syn.callsEnd]);
    assert AnyIn(s, [syn.sep, syn.callEnd, syn.callsEnd]);
    assert AnyIn(s, [syn.callBegin, syn.sep, syn.callEnd, syn.callsEnd]);
  }
}
