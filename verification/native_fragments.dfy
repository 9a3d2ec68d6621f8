/** Fragments a tool call's text can come in (internal/model native): what has no end leaks nothing, what
    is malformed is no call, and either end sentinel closes. */
module NativeFragments {
  import opened Options
  import opened Native
  import opened NativeRoundTrip
  import Text
  import L = NativeLaws

  // ---------- A call with no end ----------

  lemma NextUnterminated(syn: Syntax, a: string, b: string)
    requires Lawful(syn) && !Contains(a, syn.sep) && !Contains(b, syn.callEnd) && !Contains(b, syn.callsEnd)
    ensures Index(a + syn.sep + b, syn.sep).Some? && Next(syn, a + syn.sep + b) == Open(TrimCallOpen(syn, a))
  {
    var rest := a + syn.sep + b;
    FoundThere(a, syn.sep, b);
    assert rest[..|a|] == a && rest[|a| + |syn.sep|..] == b;
    IndexIs(b, syn.callEnd);
    IndexIs(b, syn.callsEnd);
  }

  lemma ScanOpen<A>(read: Reader, parse: BodyParser<A>, rest: string, n: nat)
    requires Shrinks(read) && read(rest).Open?
    ensures Scan(read, parse, rest, n) == Found(read(rest).kept, [])
  {
  }

  /** What stands behind the separator of a call that is never closed does not reach the user, whatever it
      is, and is no call: only what was written before it is shown. */
  lemma UnterminatedIsDropped<A>(syn: Syntax, space: char -> bool, parse: BodyParser<A>, a: string, b: string)
    requires Lawful(syn) && !Contains(a, syn.sep) && !Contains(b, syn.callEnd) && !Contains(b, syn.callsEnd)
    ensures Parsed(syn, space, parse, a + syn.sep + b) == Found(Text.Trim(StripAll(syn, TrimCallOpen(syn, a)), space), [])
  {
    NextUnterminated(syn, a, b);
    ScanOpen(ReaderOf(syn), parse, a + syn.sep + b, 0);
  }

  lemma UnterminatedAlike<A>(syn: Syntax, space: char -> bool, parse: BodyParser<A>, a: string, b: string, b': string)
    requires Lawful(syn) && !Contains(a, syn.sep)
    requires !Contains(b, syn.callEnd) && !Contains(b, syn.callsEnd) && !Contains(b', syn.callEnd) && !Contains(b', syn.callsEnd)
    ensures Parsed(syn, space, parse, a + syn.sep + b) == Parsed(syn, space, parse, a + syn.sep + b')
  {
    UnterminatedIsDropped(syn, space, parse, a, b);
    UnterminatedIsDropped(syn, space, parse, a, b');
  }

  /** Behind a trimmed preamble that holds no sentinel just that preamble is shown. */
  lemma UnterminatedLeavesPreamble<A>(syn: Syntax, space: char -> bool, parse: BodyParser<A>, preamble: string, b: string)
    requires Lawful(syn) && Free(syn, preamble) && Text.Trim(preamble, space) == preamble
    requires !Contains(b, syn.callEnd) && !Contains(b, syn.callsEnd)
    ensures Parsed(syn, space, parse, Lead(syn, preamble) + syn.sep + b) == Found(preamble, [])
  {
    OpenIsFree(syn, preamble);
    OpenTrims(syn, preamble);
    UnterminatedIsDropped(syn, space, parse, Lead(syn, preamble), b);
    StripAllFree(syn, preamble);
  }

  // ---------- A call with an end ----------

  lemma SameSentinel(s: string, x: string, t: string, i: nat)
    requires IsSentinel(x) && IsSentinel(t) && HasAt(s, x, i) && HasAt(s, t, i)
    ensures x == t
  {
    L.CharsAt(s, x, i);
    L.CharsAt(s, t, i);
    assert s[i + |x| - 1] == '>' && s[i + |t| - 1] == '>';
    assert s[i..i + |x|] == x && s[i..i + |t|] == t;
  }

  lemma OtherIsLater(s: string, body: string, end: string, tail: string, other: string)
    requires IsSentinel(end) && IsSentinel(other) && end != other && !Contains(body, other)
    requires s == body + (end + tail) && HasAt(s, end, |body|)
    ensures Index(s, other).Some? ==> Index(s, other).value > |body|
  {
    NotBefore(body, end + tail, other);
    IndexIs(s, other);
    if Index(s, other) == Some(|body|) {
      SameSentinel(s, end, other, |body|);
    }
  }

  lemma FirstIs(syn: Syntax, s: string, end: string, i: nat)
    requires end in {syn.callEnd, syn.callsEnd} && Index(s, end) == Some(i) && i + |end| <= |s|
    requires forall other :: other in {syn.callEnd, syn.callsEnd} && other != end && Index(s, other).Some? ==> Index(s, other).value > i
    ensures FirstTerminator(syn, s) == Some((i, |end|))
  {
  }

  /** Both end sentinels close: the first of either ends the body. */
  lemma EitherEnds(syn: Syntax, body: string, end: string, tail: string)
    requires Lawful(syn) && end in {syn.callEnd, syn.callsEnd} && !Contains(body, syn.callEnd) && !Contains(body, syn.callsEnd)
    ensures FirstTerminator(syn, body + end + tail) == Some((|body|, |end|))
  {
    var s := body + end + tail;
    FoundThere(body, end, tail);
    assert s == body + (end + tail);
    IndexIs(s, end);
    forall other | other in {syn.callEnd, syn.callsEnd} && other != end && Index(s, other).Some? ensures Index(s, other).value > |body| {
      OtherIsLater(s, body, end, tail, other);
    }
    FirstIs(syn, s, end, |body|);
  }

  lemma NextClosed(syn: Syntax, a: string, body: string, end: string, tail: string)
    requires Lawful(syn) && end in {syn.callEnd, syn.callsEnd}
    requires !Contains(a, syn.sep) && !Contains(body, syn.callEnd) && !Contains(body, syn.callsEnd)
    ensures var rest := a + syn.sep + (body + end + tail);
      Index(rest, syn.sep).Some? && Next(syn, rest) == Closed(TrimCallOpen(syn, a), body, tail)
  {
    var after := body + end + tail;
    var rest := a + syn.sep + after;
    FoundThere(a, syn.sep, after);
    assert rest[..|a|] == a && rest[|a| + |syn.sep|..] == after;
    EitherEnds(syn, body, end, tail);
    assert after[..|body|] == body && after[|body| + |end|..] == tail;
  }

  // ---------- A whole answer ----------

  /** Text, and behind it a call closed by either end sentinel. */
  datatype Segment = Segment(before: string, body: string, end: string)

  ghost predicate IsSegment(syn: Syntax, g: Segment) {
    && g.end in {syn.callEnd, syn.callsEnd} && !Contains(g.before, syn.sep)
    && !Contains(g.body, syn.callEnd) && !Contains(g.body, syn.callsEnd)
  }

  function Written(syn: Syntax, segments: seq<Segment>, rest: string): string {
    if segments == [] then rest
    else segments[0].before + syn.sep + (segments[0].body + segments[0].end + Written(syn, segments[1..], rest))
  }

  /** The text around the calls, without the tokens that open them. */
  function Shown(syn: Syntax, segments: seq<Segment>): string {
    if segments == [] then "" else TrimCallOpen(syn, segments[0].before) + Shown(syn, segments[1..])
  }

  /** The calls of the bodies that are one, in order, numbered on from `n`. */
  function Made<A>(parse: BodyParser<A>, segments: seq<Segment>, n: nat): seq<Call<A>> {
    if segments == [] then []
    else
      match parse(segments[0].body, n)
      case None => Made(parse, segments[1..], n)
      case Some(call) => [call] + Made(parse, segments[1..], n + 1)
  }

  lemma ScanClosed<A>(read: Reader, parse: BodyParser<A>, rest: string, n: nat)
    requires Shrinks(read) && read(rest).Closed?
    ensures var f := read(rest);
      match parse(f.body, n)
      case None =>
        (var after := Scan(read, parse, f.rest, n); Scan(read, parse, rest, n) == Found(f.kept + after.text, after.calls))
      case Some(call) =>
        (var after := Scan(read, parse, f.rest, n + 1); Scan(read, parse, rest, n) == Found(f.kept + after.text, [call] + after.calls))
  {
    var f := read(rest);
    assert [] + Scan(read, parse, f.rest, n).calls == Scan(read, parse, f.rest, n).calls;
  }

  lemma ScanSegment<A>(syn: Syntax, parse: BodyParser<A>, g: Segment, after: string, written: string, n: nat)
    requires Lawful(syn) && IsSegment(syn, g) && written == g.before + syn.sep + (g.body + g.end + after)
    ensures var m, kept := if parse(g.body, n).None? then n else n + 1, TrimCallOpen(syn, g.before);
      Scan(ReaderOf(syn), parse, written, n) ==
        Found(kept + Scan(ReaderOf(syn), parse, after, m).text, Called(parse(g.body, n)) + Scan(ReaderOf(syn), parse, after, m).calls)
  {
    NextClosed(syn, g.before, g.body, g.end, after);
    ScanClosed(ReaderOf(syn), parse, written, n);
  }

  function Called<A>(call: Option<Call<A>>): seq<Call<A>> {
    match call
    case None => []
    case Some(c) => [c]
  }

  /** What the loop finds in the rest after the last closed call. */
  ghost predicate Lasts(read: Reader, rest: string, last: string) {
    (read(rest) == Plain && last == rest) || read(rest) == Open(last)
  }

  lemma {:induction false} ScanSegments<A>(syn: Syntax, parse: BodyParser<A>, segments: seq<Segment>, rest: string, n: nat, last: string)
    requires Lawful(syn) && (forall g :: g in segments ==> IsSegment(syn, g)) && Lasts(ReaderOf(syn), rest, last)
    ensures Scan(ReaderOf(syn), parse, Written(syn, segments, rest), n) == Found(Shown(syn, segments) + last, Made(parse, segments, n))
    decreases |segments|
  {
    if segments == [] {
      assert "" + last == last;
    } else {
      var g := segments[0];
      var m := if parse(g.body, n).None? then n else n + 1;
      assert IsSegment(syn, g);
      ScanSegments(syn, parse, segments[1..], rest, m, last);
      ScanSegment(syn, parse, g, Written(syn, segments[1..], rest), Written(syn, segments, rest), n);
      Regrouped(TrimCallOpen(syn, g.before), Shown(syn, segments[1..]), last);
    }
  }

  lemma Regrouped(a: string, b: string, c: string)
    ensures a + (b + c) == (a + b) + c
  {
  }

  lemma WrittenHasSeparator(syn: Syntax, segments: seq<Segment>, rest: string)
    requires Lawful(syn) && segments != [] && IsSegment(syn, segments[0])
    ensures Index(Written(syn, segments, rest), syn.sep).Some?
  {
    var g := segments[0];
    NextClosed(syn, g.before, g.body, g.end, Written(syn, segments[1..], rest));
  }

  /** An answer of closed calls with text around them: the text is shown, stripped and trimmed, and the bodies
      that are calls are called, in order; one that is no call is dropped and stops nothing. */
  lemma AnswerIsParsed<A>(syn: Syntax, space: char -> bool, parse: BodyParser<A>, segments: seq<Segment>, tail: string)
    requires Lawful(syn) && segments != [] && (forall g :: g in segments ==> IsSegment(syn, g)) && !Contains(tail, syn.sep)
    ensures Parsed(syn, space, parse, Written(syn, segments, tail)) ==
      Found(Text.Trim(StripAll(syn, Shown(syn, segments) + tail), space), Made(parse, segments, 0))
  {
    IndexIs(tail, syn.sep);
    assert ReaderOf(syn)(tail) == Plain;
    WrittenHasSeparator(syn, segments, tail);
    ScanSegments(syn, parse, segments, tail, 0, tail);
  }

  /** And when its last call is not closed, that call leaves nothing, and takes nothing from what is before it. */
  lemma CutAnswerIsParsed<A>(syn: Syntax, space: char -> bool, parse: BodyParser<A>, segments: seq<Segment>, a: string, b: string)
    requires Lawful(syn) && (forall g :: g in segments ==> IsSegment(syn, g))
    requires !Contains(a, syn.sep) && !Contains(b, syn.callEnd) && !Contains(b, syn.callsEnd)
    ensures Parsed(syn, space, parse, Written(syn, segments, a + syn.sep + b)) ==
      Found(Text.Trim(StripAll(syn, Shown(syn, segments) + TrimCallOpen(syn, a)), space), Made(parse, segments, 0))
  {
    NextUnterminated(syn, a, b);
    if segments != [] {
      WrittenHasSeparator(syn, segments, a + syn.sep + b);
    }
    ScanSegments(syn, parse, segments, a + syn.sep + b, 0, TrimCallOpen(syn, a));
  }

  lemma {:induction false} BlanksTrim(s: string, blanks: string)
    requires (forall c :: c in blanks ==> Blank(c)) && s != "" && !Blank(s[|s| - 1])
    ensures TrimBlanks(s + blanks) == s
  {
    if blanks == "" {
      assert s + blanks == s;
    } else {
      assert blanks[|blanks| - 1] in blanks;
      assert (s + blanks)[..|s + blanks| - 1] == s + blanks[..|blanks| - 1];
      BlanksTrim(s, blanks[..|blanks| - 1]);
    }
  }

  ghost predicate EndsIn(s: string, t: string) {
    |t| <= |s| && s[|s| - |t|..] == t
  }

  /** Text that does not end in a token that opens a call is kept, but for the blanks behind it. */
  lemma OtherTextIsKept(syn: Syntax, s: string, blanks: string)
    requires s != "" && s[|s| - 1] !in {' ', '\t', '\r', '\n'} && forall c :: c in blanks ==> c in {' ', '\t', '\r', '\n'}
    requires !EndsIn(s, syn.prefix) && !EndsIn(s, syn.callBegin) && !EndsIn(s, syn.callsBegin)
    ensures TrimCallOpen(syn, s + blanks) == s
  {
    BlanksTrim(s, blanks);
  }

  // ---------- Which bodies are calls ----------

  lemma NameAlone(name: string)
    requires '\n' !in name && '{' !in name
    ensures SplitName(name) == (name, "")
  {
    Text.CutBehind(name, "", '\n');
    Text.CutBehind(name, "", '{');
    assert name + "" == name;
  }

  lemma NameToNewline(body: string, name: string, tail: string)
    requires '\n' !in name && '{' !in name && body == name + ['\n'] + tail
    ensures SplitName(body) == (name, tail)
  {
    assert body == name + (['\n'] + tail) && (['\n'] + tail)[1..] == tail;
    SplitsAtNewline(name, ['\n'] + tail);
  }

  lemma NameToBrace(body: string, name: string, tail: string)
    requires '\n' !in name && '{' !in name && body == name + ['{'] + tail
    ensures SplitName(body) == (name, ['{'] + tail)
  {
    assert body == name + (['{'] + tail);
    Text.CutBehind(name, ['{'] + tail, '\n');
    Text.CutBehind(name, ['{'] + tail, '{');
    assert body[..|name|] == name && body[|name|..] == ['{'] + tail;
  }

  /** The name ends at the first newline, or at a brace before it, which the arguments keep. */
  lemma NameEnds(body: string, name: string, tail: string)
    requires '\n' !in name && '{' !in name
    ensures body == name ==> SplitName(body) == (name, "")
    ensures body == name + ['\n'] + tail ==> SplitName(body) == (name, tail)
    ensures body == name + ['{'] + tail ==> SplitName(body) == (name, ['{'] + tail)
  {
    if body == name {
      NameAlone(name);
    } else if body == name + ['\n'] + tail {
      NameToNewline(body, name, tail);
    } else if body == name + ['{'] + tail {
      NameToBrace(body, name, tail);
    }
  }

  /** What stands around a name or around arguments that is not theirs: spaces, and a fence of backticks. */
  function Bare(space: char -> bool, s: string): string {
    Text.Trim(Text.Trim(Text.Trim(s, space), c => c == '`'), space)
  }

  lemma {:induction false} SameTrimLeft(s: string)
    ensures Text.TrimLeft(s, Backtick) == Text.TrimLeft(s, c => c == '`')
  {
    if s != "" {
      SameTrimLeft(s[1..]);
    }
  }

  lemma {:induction false} SameTrimRight(s: string)
    ensures Text.TrimRight(s, Backtick) == Text.TrimRight(s, c => c == '`')
  {
    if s != "" {
      SameTrimRight(s[..|s| - 1]);
    }
  }

  lemma BareIs(space: char -> bool, s: string)
    ensures Bare(space, s) == SanitizeName(space, s)
  {
    var t := Text.Trim(s, space);
    SameTrimLeft(t);
    SameTrimRight(Text.TrimLeft(t, Backtick));
  }

  /** The arguments that decode: none at all, or those from the first brace on. */
  ghost predicate Decodes<A>(json: Json<A>, given: string, args: A) {
    if given == "" then args == json.empty
    else Text.Cut(given, '{') < |given| && json.decode(given[Text.Cut(given, '{')..]) == Some(args)
  }

  lemma BodyHasArgs<A>(syn: Syntax, space: char -> bool, json: Json<A>, body: string, name: string, rest: string, n: nat)
    requires SplitName(Text.Trim(body, space)) == (name, rest)
    ensures ParseBody(syn, space, json, body, n) ==
      if Bare(space, name) == "" || ArgsIn(json, Bare(space, StripAll(syn, rest))).None? then None
      else Some(Call(CallId(n), Bare(space, name), ArgsIn(json, Bare(space, StripAll(syn, rest))).value))
  {
    BareIs(space, name);
    BareIs(space, StripAll(syn, rest));
  }

  lemma ArgsDecode<A(!new)>(json: Json<A>, given: string)
    ensures ArgsIn(json, given).Some? ==> Decodes(json, given, ArgsIn(json, given).value)
    ensures forall args :: Decodes(json, given, args) ==> ArgsIn(json, given) == Some(args)
  {
  }

  lemma SplitBodyIsCallIff<A(!new)>(syn: Syntax, space: char -> bool, json: Json<A>, body: string, name: string, tail: string, n: nat,
                                    call: Call<A>)
    requires SplitName(Text.Trim(body, space)) == (name, tail)
    ensures ParseBody(syn, space, json, body, n) == Some(call) <==>
      call.id == CallId(n) && call.name == Bare(space, name) && call.name != "" && Decodes(json, Bare(space, StripAll(syn, tail)), call.args)
  {
    BodyHasArgs(syn, space, json, body, name, tail, n);
    ArgsDecode(json, Bare(space, StripAll(syn, tail)));
  }

  /** A body that is, trimmed, a name, a newline and arguments is a call exactly if the bare name is not empty
      and the bare arguments, without sentinels, decode; and that call has just this name and arguments. */
  lemma BodyIsCallIff<A(!new)>(syn: Syntax, space: char -> bool, json: Json<A>, body: string, name: string, tail: string, n: nat,
                               call: Call<A>)
    requires '\n' !in name && '{' !in name && Text.Trim(body, space) == name + ['\n'] + tail
    ensures ParseBody(syn, space, json, body, n) == Some(call) <==>
      call.id == CallId(n) && call.name == Bare(space, name) && call.name != "" && Decodes(json, Bare(space, StripAll(syn, tail)), call.args)
  {
    NameToNewline(Text.Trim(body, space), name, tail);
    SplitBodyIsCallIff(syn, space, json, body, name, tail, n, call);
  }

  // ---------- Text without a separator ----------

  lemma {:induction false} AnyInIs(s: string, ts: seq<string>)
    ensures AnyIn(s, ts) <==> exists t :: t in ts && Contains(s, t)
  {
    if ts != [] {
      AnyInIs(s, ts[1..]);
      IndexIs(s, ts[0]);
      if Index(s, ts[0]).Some? {
        NotNone(s, ts[0], Index(s, ts[0]).value);
      }
    }
  }

  /** Without a separator there is no call, and the text is left alone unless it holds a sentinel. */
  lemma WithoutSeparator<A>(syn: Syntax, space: char -> bool, parse: BodyParser<A>, content: string)
    requires Lawful(syn) && !Contains(content, syn.sep)
    ensures Parsed(syn, space, parse, content).calls == []
    ensures Free(syn, content) ==> Parsed(syn, space, parse, content).text == content
    ensures !Free(syn, content) ==> Parsed(syn, space, parse, content).text == Text.Trim(StripAll(syn, content), space)
  {
    IndexIs(content, syn.sep);
    AnyInIs(content, syn.Sentinels());
    assert forall t :: t in syn.Sentinels() <==> t in L.SentinelSet(syn);
  }
}
