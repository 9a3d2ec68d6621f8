/** The native tool-call parser (internal/model native): calls a model wrote into its answer's text. */
module Native {
  import opened Options
  import Text

  /** The sentinels of the native syntax and the word before the separator. */
  datatype Syntax = Syntax(sep: string, callEnd: string, callsEnd: string, callBegin: string, callsBegin: string, prefix: string) {
    /** In the order they are stripped. */
    function Sentinels(): seq<string> {
      [callsBegin, callBegin, sep, callEnd, callsEnd]
    }
  }

  const NATIVE := Syntax("<|tool_sep|>", "<|tool_call_end|>", "<|tool_calls_end|>", "<|tool_call_begin|>", "<|tool_calls_begin|>", "function")

  /** An opening angle begins a sentinel and stands nowhere else in it; a closing one ends it. */
  ghost predicate IsSentinel(t: string) {
    && |t| > 1 && t[0] == '<' && t[|t| - 1] == '>'
    && forall i :: 0 < i < |t| - 1 ==> t[i] != '<' && t[i] != '>' && t[i] != '\n'
  }

  /** What the proofs use of the syntax. */
  ghost predicate Lawful(syn: Syntax) {
    && IsSentinel(syn.sep) && IsSentinel(syn.callEnd) && IsSentinel(syn.callsEnd) && IsSentinel(syn.callBegin) && IsSentinel(syn.callsBegin)
    && syn.sep !in {syn.callEnd, syn.callsEnd, syn.callBegin, syn.callsBegin}
    && syn.callEnd != syn.callsEnd && syn.callEnd !in {syn.callBegin, syn.callsBegin}
    && syn.callsEnd !in {syn.callBegin, syn.callsBegin} && syn.callBegin != syn.callsBegin
    && syn.prefix != "" && '<' !in syn.prefix && '>' !in syn.prefix && !Blank(syn.prefix[|syn.prefix| - 1])
  }

  lemma NativeSentinels()
    ensures IsSentinel("<|tool_sep|>") && |"<|tool_sep|>"| == 12
    ensures IsSentinel("<|tool_call_end|>") && |"<|tool_call_end|>"| == 17
    ensures IsSentinel("<|tool_calls_end|>") && |"<|tool_calls_end|>"| == 18
    ensures IsSentinel("<|tool_call_begin|>") && |"<|tool_call_begin|>"| == 19
    ensures IsSentinel("<|tool_calls_begin|>") && |"<|tool_calls_begin|>"| == 20
  {
  }

  lemma NativeIsLawful()
    ensures Lawful(NATIVE)
  {
    NativeSentinels();
    assert |NATIVE.sep| == 12 && |NATIVE.callEnd| == 17 && |NATIVE.callsEnd| == 18 && |NATIVE.callBegin| == 19 && |NATIVE.callsBegin| == 20;
  }

  // ---------- Strings ----------

  predicate HasAt(s: string, t: string, i: nat) {
    i + |t| <= |s| && s[i..i + |t|] == t
  }

  ghost predicate Contains(s: string, t: string) {
    exists i: nat :: HasAt(s, t, i)
  }

  /** strings.Index. */
  function Index(s: string, t: string): (r: Option<nat>)
    ensures r.Some? ==> r.value + |t| <= |s|
  {
    if HasAt(s, t, 0) then Some(0)
    else if s == "" then None
    else
      match Index(s[1..], t)
      case Some(i) => Some(i + 1)
      case None => None
  }

  /** It is where `t` is found first, and None when it is not found. */
  lemma {:induction false} IndexIs(s: string, t: string)
    ensures match Index(s, t)
      case Some(i) => HasAt(s, t, i) && forall j: nat :: j < i ==> !HasAt(s, t, j)
      case None => !Contains(s, t)
  {
    if !HasAt(s, t, 0) {
      if s != "" {
        IndexIs(s[1..], t);
        forall j: nat | 0 < j ensures HasAt(s, t, j) <==> HasAt(s[1..], t, j - 1) {
          ShiftedAt(s, t, j);
        }
      }
    }
  }

  lemma ShiftedAt(s: string, t: string, j: nat)
    requires 0 < j && s != ""
    ensures HasAt(s, t, j) <==> HasAt(s[1..], t, j - 1)
  {
    if j + |t| <= |s| {
      assert s[1..][j - 1..j - 1 + |t|] == s[j..j + |t|];
    }
  }

  /** strings.ReplaceAll(s, t, ""), in one pass. */
  function Strip(s: string, t: string): string {
    if s == "" || t == "" then s
    else if HasAt(s, t, 0) then Strip(s[|t|..], t)
    else [s[0]] + Strip(s[1..], t)
  }

  function TrimSuffix(s: string, t: string): string {
    if |t| <= |s| && s[|s| - |t|..] == t then s[..|s| - |t|] else s
  }

  predicate Backtick(c: char) {
    c == '`'
  }

  /** The cutset of trimCallOpen. */
  predicate Blank(c: char) {
    c == ' ' || c == '\t' || c == '\r' || c == '\n'
  }

  // ---------- The parser ----------

  /** What is left of the text, and the calls in it. */
  datatype Found<A> = Found(text: string, calls: seq<Call<A>>)

  datatype Call<A> = Call(id: string, name: string, args: A)

  /** JSON decoding of the first object of a text, and the empty object. */
  datatype Json<A> = Json(decode: string -> Option<A>, empty: A)

  function CallId(n: nat): string {
    "call_native_" + Text.Decimal(n)
  }

  /** stripToolSentinels: one pass for each sentinel of `ts`. */
  function StripEach(s: string, ts: seq<string>): string
    decreases |ts|
  {
    if ts == [] then s else StripEach(Strip(s, ts[0]), ts[1..])
  }

  function StripAll(syn: Syntax, s: string): string {
    StripEach(s, syn.Sentinels())
  }

  function TrimBlanks(s: string): string {
    if s != "" && Blank(s[|s| - 1]) then TrimBlanks(s[..|s| - 1]) else s
  }

  function TrimCallOpen(syn: Syntax, pre: string): string {
    TrimSuffix(TrimSuffix(TrimSuffix(TrimBlanks(pre), syn.prefix), syn.callBegin), syn.callsBegin)
  }

  /** The earliest end sentinel: where it starts and how long it is. */
  function FirstTerminator(syn: Syntax, s: string): (r: Option<(nat, nat)>)
    ensures r.Some? ==> r.value.0 + r.value.1 <= |s|
  {
    var i1, i2 := Index(s, syn.callEnd), Index(s, syn.callsEnd);
    if i1.None? && i2.None? then None
    else if i1.None? then Some((i2.value, |syn.callsEnd|))
    else if i2.None? || i1.value <= i2.value then Some((i1.value, |syn.callEnd|))
    else Some((i2.value, |syn.callsEnd|))
  }

  /** The name runs to the first newline, or to the first brace when that comes earlier. */
  function SplitName(body: string): (string, string) {
    var nl, brace := Text.Cut(body, '\n'), Text.Cut(body, '{');
    if brace < nl then (body[..brace], body[brace..])
    else if nl == |body| then (body, "")
    else (body[..nl], body[nl + 1..])
  }

  function SanitizeName(space: char -> bool, s: string): string {
    Text.Trim(Text.Trim(Text.Trim(s, space), Backtick), space)
  }

  function ParseArgs<A>(syn: Syntax, space: char -> bool, json: Json<A>, rest: string): Option<A> {
    ArgsIn(json, Text.Trim(Text.Trim(Text.Trim(StripAll(syn, rest), space), Backtick), space))
  }

  /** No text is no arguments; otherwise the first object is decoded, and there must be one. */
  function ArgsIn<A>(json: Json<A>, trimmed: string): Option<A> {
    if trimmed == "" then Some(json.empty)
    else
      var start := Text.Cut(trimmed, '{');
      if start == |trimmed| then None else json.decode(trimmed[start..])
  }

  function ParseBody<A>(syn: Syntax, space: char -> bool, json: Json<A>, body: string, n: nat): Option<Call<A>> {
    var (first, rest) := SplitName(Text.Trim(body, space));
    var name := SanitizeName(space, first);
    if name == "" then None
    else
      match ParseArgs(syn, space, json, rest)
      case Some(args) => Some(Call(CallId(n), name, args))
      case None => None
  }

  type BodyParser<A> = (string, nat) -> Option<Call<A>>

  function BodyParserOf<A>(syn: Syntax, space: char -> bool, json: Json<A>): BodyParser<A> {
    (body: string, n: nat) => ParseBody(syn, space, json, body, n)
  }

  /** How the loop reads on: no separator left, a fragment with no end, or a fragment and what follows it. */
  datatype Fragment = Plain | Open(kept: string) | Closed(kept: string, body: string, rest: string)

  function FragmentFrom(kept: string, afterSep: string, end: Option<(nat, nat)>): (r: Fragment)
    requires end.Some? ==> end.value.0 + end.value.1 <= |afterSep|
    ensures r.Closed? ==> |r.rest| <= |afterSep|
  {
    match end
    case None => Open(kept)
    case Some(e) => Closed(kept, afterSep[..e.0], afterSep[e.0 + e.1..])
  }

  /** The fragment around the separator at `i`. */
  function Around(syn: Syntax, rest: string, i: nat): (r: Fragment)
    requires syn.sep != "" && i + |syn.sep| <= |rest|
    ensures r.Closed? ==> |r.rest| < |rest|
  {
    var afterSep := rest[i + |syn.sep|..];
    FragmentFrom(TrimCallOpen(syn, rest[..i]), afterSep, FirstTerminator(syn, afterSep))
  }

  function Next(syn: Syntax, rest: string): (r: Fragment)
    requires syn.sep != ""
    ensures r.Closed? ==> |r.rest| < |rest|
  {
    match Index(rest, syn.sep)
    case None => Plain
    case Some(i) => Around(syn, rest, i)
  }

  type Reader = string -> Fragment

  ghost predicate Shrinks(read: Reader) {
    forall s: string :: read(s).Closed? ==> |read(s).rest| < |s|
  }

  function ReaderOf(syn: Syntax): (read: Reader)
    requires syn.sep != ""
    ensures Shrinks(read)
  {
    (rest: string) => Next(syn, rest)
  }

  /** What the loop still writes and finds in `rest`, having found `n` calls. */
  function Scan<A>(read: Reader, parse: BodyParser<A>, rest: string, n: nat): Found<A>
    requires Shrinks(read)
    decreases |rest|
  {
    match read(rest)
    case Plain => Found(rest, [])
    case Open(kept) => Found(kept, [])
    case Closed(kept, body, after) =>
      var call := parse(body, n);
      var found := if call.Some? then [call.value] else [];
      Ahead(kept, found, Scan(read, parse, after, n + |found|))
  }

  predicate AnyIn(s: string, ts: seq<string>) {
    ts != [] && (Index(s, ts[0]).Some? || AnyIn(s, ts[1..]))
  }

  /** The text and the calls of an answer. */
  function Parsed<A>(syn: Syntax, space: char -> bool, parse: BodyParser<A>, content: string): Found<A>
    requires syn.sep != ""
  {
    if Index(content, syn.sep).Some? then
      var r := Scan(ReaderOf(syn), parse, content, 0);
      Found(Text.Trim(StripAll(syn, r.text), space), r.calls)
    else if AnyIn(content, syn.Sentinels()) then Found(Text.Trim(StripAll(syn, content), space), [])
    else Found(content, [])
  }

  method StripToolSentinels(syn: Syntax, s: string) returns (r: string)
    ensures r == StripAll(syn, s)
  {
    r := s;
    var ts := syn.Sentinels();
    for i := 0 to |ts|
      invariant StripEach(r, ts[i..]) == StripEach(s, ts)
    {
      r := Strip(r, ts[i]);
    }
  }

  method ContainsSentinel(syn: Syntax, s: string) returns (found: bool)
    ensures found == AnyIn(s, syn.Sentinels())
  {
    var ts := syn.Sentinels();
    for i := 0 to |ts|
      invariant AnyIn(s, ts) == AnyIn(s, ts[i..])
    {
      if Index(s, ts[i]).Some? {
        return true;
      }
    }
    found := false;
  }

  /** The loop over the fragments. */
  method ScanLoop<A>(read: Reader, parse: BodyParser<A>, content: string) returns (clean: string, calls: seq<Call<A>>)
    requires Shrinks(read)
    ensures Found(clean, calls) == Scan(read, parse, content, 0)
  {
    clean, calls := "", [];
    var rest, done := content, false;
    AheadOfNothing("", [], Scan(read, parse, content, 0));
    while !done
      invariant Scan(read, parse, content, 0) == if done then Found(clean, calls) else Ahead(clean, calls, Scan(read, parse, rest, |calls|))
      decreases !done, |rest|
    {
      ghost var here := Scan(read, parse, rest, |calls|);
      AheadOfNothing(clean, calls, here);
      match read(rest)
      case Plain =>
        assert here == Found(rest, []);
        clean, done := clean + rest, true;
      case Open(kept) =>
        assert here == Found(kept, []);
        clean, done := clean + kept, true;
      case Closed(kept, body, after) =>
        var call := parse(body, |calls|);
        var found := if call.Some? then [call.value] else [];
        AheadTwice(clean, calls, kept, found, Scan(read, parse, after, |calls| + |found|));
        clean, calls, rest := clean + kept, calls + found, after;
    }
  }

  lemma AheadOfNothing<A>(clean: string, calls: seq<Call<A>>, r: Found<A>)
    ensures Ahead("", [], r) == r
    ensures calls + [] == calls
  {
    assert "" + r.text == r.text && [] + r.calls == r.calls;
  }

  function Ahead<A>(clean: string, calls: seq<Call<A>>, r: Found<A>): Found<A> {
    Found(clean + r.text, calls + r.calls)
  }

  lemma AheadTwice<A>(clean: string, calls: seq<Call<A>>, kept: string, found: seq<Call<A>>, r: Found<A>)
    ensures Ahead(clean, calls, Ahead(kept, found, r)) == Ahead(clean + kept, calls + found, r)
  {
    assert clean + (kept + r.text) == clean + kept + r.text;
    assert calls + (found + r.calls) == calls + found + r.calls;
  }

  /** parseNativeToolCalls. */
  method ParseNativeToolCalls<A>(syn: Syntax, space: char -> bool, parse: BodyParser<A>, content: string) returns (text: string, calls: seq<Call<A>>)
    requires syn.sep != ""
    ensures Found(text, calls) == Parsed(syn, space, parse, content)
  {
    if Index(content, syn.sep).None? {
      var any := ContainsSentinel(syn, content);
      if !any {
        return content, [];
      }
      var stripped := StripToolSentinels(syn, content);
      return Text.Trim(stripped, space), [];
    }
    var clean;
    clean, calls := ScanLoop(ReaderOf(syn), parse, content);
    var stripped := StripToolSentinels(syn, clean);
    text := Text.Trim(stripped, space);
  }
}
