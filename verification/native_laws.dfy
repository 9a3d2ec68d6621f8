/** What the native tool-call parser promises: no sentinel survives in the text, and canonical print
    is read back. */
module NativeLaws {
  import opened Options
  import opened Native
  import Text

  // ---------- Where sentinels stand ----------

  /** What may stand at a `<`: a sentinel of `sentinels`, or nothing but a character of `stray` behind it. */
  datatype Marks = Marks(sentinels: set<string>, stray: char -> bool) {
    function Without(t: string): Marks {
      Marks(sentinels - {t}, stray)
    }
  }

  /** Every `<` of `s` begins a sentinel or is a stray one. */
  ghost predicate Clean(s: string, ms: Marks) {
    forall i: nat :: i < |s| && s[i] == '<' ==> Marked(s, ms, i)
  }

  ghost predicate Marked(s: string, ms: Marks, i: nat) {
    Opens(s, ms, i) || Strays(s, ms, i)
  }

  ghost predicate Opens(s: string, ms: Marks, i: nat) {
    exists t :: t in ms.sentinels && HasAt(s, t, i)
  }

  ghost predicate Strays(s: string, ms: Marks, i: nat) {
    i + 1 < |s| && ms.stray(s[i + 1])
  }

  ghost predicate MarksLawful(ms: Marks) {
    (forall t :: t in ms.sentinels ==> IsSentinel(t)) && !ms.stray('<')
  }

  /** The characters of `stray` begin nothing the parser cuts off and are no sentinel's second. */
  ghost predicate Harmless(syn: Syntax, stray: char -> bool)
    requires Lawful(syn)
  {
    forall c :: stray(c) ==> c != '<' && !Blank(c) && c != syn.prefix[0] && forall t :: t in SentinelSet(syn) ==> t[1] != c
  }

  ghost function SentinelSet(syn: Syntax): set<string> {
    {syn.callsBegin, syn.callBegin, syn.sep, syn.callEnd, syn.callsEnd}
  }

  lemma InSuffix(s: string, t: string, n: nat, i: nat)
    requires n <= |s|
    ensures HasAt(s[n..], t, i) <==> HasAt(s, t, n + i)
  {
    if n + i + |t| <= |s| {
      assert s[n..][i..i + |t|] == s[n + i..n + i + |t|];
    }
  }

  lemma InPrefix(s: string, t: string, n: nat, i: nat)
    requires n <= |s|
    ensures HasAt(s[..n], t, i) <==> HasAt(s, t, i) && i + |t| <= n
  {
    if i + |t| <= n {
      assert s[..n][i..i + |t|] == s[i..i + |t|];
    }
  }

  lemma SuffixMarked(s: string, ms: Marks, n: nat, i: nat)
    requires n <= |s|
    ensures Marked(s[n..], ms, i) <==> Marked(s, ms, n + i)
  {
    forall t ensures HasAt(s[n..], t, i) <==> HasAt(s, t, n + i) {
      InSuffix(s, t, n, i);
    }
  }

  lemma SuffixClean(s: string, ms: Marks, n: nat)
    requires Clean(s, ms) && n <= |s|
    ensures Clean(s[n..], ms)
  {
    forall i: nat | i < |s[n..]| && s[n..][i] == '<' ensures Marked(s[n..], ms, i) {
      SuffixMarked(s, ms, n, i);
    }
  }

  /** A cut where a sentinel begins, or after the last closing angle, cuts through none; and none comes
      right behind a stray `<`. */
  lemma PrefixClean(s: string, ms: Marks, n: nat)
    requires Clean(s, ms) && MarksLawful(ms) && n <= |s|
    requires '>' !in s[n..] || s[n] == '<'
    requires n < |s| ==> !ms.stray(s[n])
    ensures Clean(s[..n], ms)
  {
    forall i: nat | i < |s[..n]| && s[..n][i] == '<' ensures Marked(s[..n], ms, i) {
      assert Marked(s, ms, i);
      if t :| t in ms.sentinels && HasAt(s, t, i) {
        NotCut(s, t, n, i);
        InPrefix(s, t, n, i);
      } else {
        assert i + 1 != n;
      }
    }
  }

  lemma NotCut(s: string, t: string, n: nat, i: nat)
    requires IsSentinel(t) && HasAt(s, t, i) && i < n <= |s|
    requires '>' !in s[n..] || s[n] == '<'
    ensures i + |t| <= n
  {
    CharsAt(s, t, i);
    forall j | n <= j < |s| ensures s[j] in s[n..] {
      assert s[n..][j - n] == s[j];
    }
    assert s[i + |t| - 1] == '>';
  }

  lemma CharsAt(s: string, t: string, i: nat)
    requires HasAt(s, t, i)
    ensures forall k :: i <= k < i + |t| ==> s[k] == t[k - i]
  {
    forall k | i <= k < i + |t| ensures s[k] == t[k - i] {
      assert s[i..i + |t|][k - i] == s[k];
    }
  }

  lemma ConcatClean(a: string, b: string, ms: Marks)
    requires Clean(a, ms) && Clean(b, ms)
    ensures Clean(a + b, ms)
  {
    forall i: nat | i < |a + b| && (a + b)[i] == '<' ensures Marked(a + b, ms, i) {
      if i < |a| {
        assert Marked(a, ms, i);
        assert (a + b)[..|a|] == a;
        if t :| t in ms.sentinels && HasAt(a, t, i) {
          InPrefix(a + b, t, |a|, i);
        }
      } else {
        assert (a + b)[|a|..] == b;
        SuffixMarked(a + b, ms, |a|, i - |a|);
      }
    }
  }

  // ---------- Stripping ----------

  lemma {:induction false} StripKeeps(y: string, z: string, t: string)
    requires t != "" && t[0] !in y
    ensures Strip(y + z, t) == y + Strip(z, t)
  {
    if y == "" {
      assert y + z == z;
    } else {
      assert (y + z)[1..] == y[1..] + z;
      StripKeeps(y[1..], z, t);
    }
  }

  lemma AtStart(s: string, x: string)
    requires HasAt(s, x, 0)
    ensures s == x + s[|x|..]
  {
  }

  /** Another sentinel than the stripped one stands untouched. */
  lemma StripPasses(s: string, x: string, t: string)
    requires IsSentinel(x) && IsSentinel(t) && HasAt(s, x, 0) && !HasAt(s, t, 0)
    ensures Strip(s, t) == x + Strip(s[|x|..], t)
  {
    AtStart(s, x);
    var z := s[|x|..];
    assert s[1..] == x[1..] + z;
    StripKeeps(x[1..], z, t);
    assert [x[0]] + (x[1..] + Strip(z, t)) == x + Strip(z, t);
  }

  lemma {:induction false} StripClean(s: string, t: string, ms: Marks)
    requires Clean(s, ms) && MarksLawful(ms) && IsSentinel(t)
    ensures Clean(Strip(s, t), ms.Without(t))
    decreases |s|
  {
    if s == "" {
    } else if HasAt(s, t, 0) {
      SuffixClean(s, ms, |t|);
      StripClean(s[|t|..], t, ms);
    } else if Opens(s, ms, 0) {
      var x :| x in ms.sentinels && HasAt(s, x, 0);
      SuffixClean(s, ms, |x|);
      StripClean(s[|x|..], t, ms);
      StripPasses(s, x, t);
      SentinelIsClean(x, ms.Without(t));
      ConcatClean(x, Strip(s[|x|..], t), ms.Without(t));
    } else {
      SuffixClean(s, ms, 1);
      StripClean(s[1..], t, ms);
      if s[0] == '<' {
        assert Marked(s, ms, 0);
        StraysOn(s[1..], t, ms);
      } else {
        ConcatClean([s[0]], Strip(s[1..], t), ms.Without(t));
      }
    }
  }

  /** What stands behind a stray `<` is not stripped, so the `<` stays one. */
  lemma StraysOn(s: string, t: string, ms: Marks)
    requires s != "" && ms.stray(s[0]) && MarksLawful(ms) && IsSentinel(t) && Clean(Strip(s, t), ms.Without(t))
    ensures Clean(['<'] + Strip(s, t), ms.Without(t))
  {
    assert !HasAt(s, t, 0);
    var r := Strip(s, t);
    assert r[0] == s[0];
    forall i: nat | i < |['<'] + r| && (['<'] + r)[i] == '<' ensures Marked(['<'] + r, ms.Without(t), i) {
      if i > 0 {
        assert (['<'] + r)[1..] == r;
        SuffixMarked(['<'] + r, ms.Without(t), 1, i - 1);
      }
    }
  }

  lemma SentinelIsClean(x: string, ms: Marks)
    requires IsSentinel(x) && x in ms.sentinels
    ensures Clean(x, ms)
  {
    assert HasAt(x, x, 0);
  }

  /** Stripping a clean text leaves none but stray angles. */
  lemma AllStripped(syn: Syntax, stray: char -> bool, s: string)
    requires Lawful(syn) && !stray('<') && Clean(s, Marks(SentinelSet(syn), stray))
    ensures Clean(StripAll(syn, s), Marks({}, stray))
  {
    var m := Marks(SentinelSet(syn), stray);
    var a := Strip(s, syn.callsBegin);
    StripClean(s, syn.callsBegin, m);
    var b := Strip(a, syn.callBegin);
    StripClean(a, syn.callBegin, m.Without(syn.callsBegin));
    var c := Strip(b, syn.sep);
    StripClean(b, syn.sep, m.Without(syn.callsBegin).Without(syn.callBegin));
    var d := Strip(c, syn.callEnd);
    StripClean(c, syn.callEnd, m.Without(syn.callsBegin).Without(syn.callBegin).Without(syn.sep));
    StripClean(d, syn.callsEnd, m.Without(syn.callsBegin).Without(syn.callBegin).Without(syn.sep).Without(syn.callEnd));
    StrippedInTurn(syn, s);
    assert SentinelSet(syn) - {syn.callsBegin} - {syn.callBegin} - {syn.sep} - {syn.callEnd} - {syn.callsEnd} == {};
  }

  lemma StrippedInTurn(syn: Syntax, s: string)
    ensures StripAll(syn, s) == Strip(Strip(Strip(Strip(Strip(s, syn.callsBegin), syn.callBegin), syn.sep), syn.callEnd), syn.callsEnd)
  {
    var a := Strip(s, syn.callsBegin);
    var b := Strip(a, syn.callBegin);
    var c := Strip(b, syn.sep);
    var d := Strip(c, syn.callEnd);
    assert StripAll(syn, s) == StripEach(a, [syn.callBegin, syn.sep, syn.callEnd, syn.callsEnd]);
    assert StripEach(a, [syn.callBegin, syn.sep, syn.callEnd, syn.callsEnd]) == StripEach(b, [syn.sep, syn.callEnd, syn.callsEnd]);
    assert StripEach(b, [syn.sep, syn.callEnd, syn.callsEnd]) == StripEach(c, [syn.callEnd, syn.callsEnd]);
    assert StripEach(c, [syn.callEnd, syn.callsEnd]) == StripEach(d, [syn.callsEnd]);
    assert StripEach(d, [syn.callsEnd]) == StripEach(Strip(d, syn.callsEnd), []);
  }

  // ---------- No sentinel survives ----------

  /** No character that the parser cuts a text before stands behind a stray `<`. */
  ghost predicate CutsClear(syn: Syntax, ms: Marks)
    requires Lawful(syn)
  {
    MarksLawful(ms) && !ms.stray(syn.prefix[0]) && forall c :: Blank(c) ==> !ms.stray(c)
  }

  lemma {:induction false} BlanksTrimmedClean(syn: Syntax, s: string, ms: Marks)
    requires Lawful(syn) && Clean(s, ms) && CutsClear(syn, ms)
    ensures Clean(TrimBlanks(s), ms)
  {
    if s != "" && Blank(s[|s| - 1]) {
      assert s[|s| - 1..] == [s[|s| - 1]];
      PrefixClean(s, ms, |s| - 1);
      BlanksTrimmedClean(syn, s[..|s| - 1], ms);
    }
  }

  lemma SuffixTrimmedClean(s: string, t: string, ms: Marks)
    requires Clean(s, ms) && MarksLawful(ms) && t != "" && ('>' !in t || t[0] == '<') && !ms.stray(t[0])
    ensures Clean(TrimSuffix(s, t), ms)
  {
    if |t| <= |s| && s[|s| - |t|..] == t {
      assert s[|s| - |t|] == s[|s| - |t|..][0];
      PrefixClean(s, ms, |s| - |t|);
    }
  }

  lemma CallOpenTrimmedClean(syn: Syntax, pre: string, ms: Marks)
    requires Lawful(syn) && CutsClear(syn, ms) && Clean(pre, ms)
    ensures Clean(TrimCallOpen(syn, pre), ms)
  {
    BlanksTrimmedClean(syn, pre, ms);
    var a := TrimBlanks(pre);
    SuffixTrimmedClean(a, syn.prefix, ms);
    var b := TrimSuffix(a, syn.prefix);
    SuffixTrimmedClean(b, syn.callBegin, ms);
    SuffixTrimmedClean(TrimSuffix(b, syn.callBegin), syn.callsBegin, ms);
  }

  ghost predicate FragmentClean(f: Fragment, ms: Marks) {
    match f
    case Plain => true
    case Open(kept) => Clean(kept, ms)
    case Closed(kept, _, after) => Clean(kept, ms) && Clean(after, ms)
  }

  lemma AroundSepClean(syn: Syntax, rest: string, i: nat, ms: Marks)
    requires Lawful(syn) && CutsClear(syn, ms) && Clean(rest, ms) && HasAt(rest, syn.sep, i)
    ensures Clean(TrimCallOpen(syn, rest[..i]), ms) && Clean(rest[i + |syn.sep|..], ms)
  {
    CharsAt(rest, syn.sep, i);
    assert rest[i] == '<';
    PrefixClean(rest, ms, i);
    CallOpenTrimmedClean(syn, rest[..i], ms);
    SuffixClean(rest, ms, i + |syn.sep|);
  }

  lemma FragmentFromClean(kept: string, afterSep: string, end: Option<(nat, nat)>, ms: Marks)
    requires Clean(kept, ms) && Clean(afterSep, ms) && (end.Some? ==> end.value.0 + end.value.1 <= |afterSep|)
    ensures FragmentClean(FragmentFrom(kept, afterSep, end), ms)
  {
    if end.Some? {
      SuffixClean(afterSep, ms, end.value.0 + end.value.1);
    }
  }

  lemma AroundClean(syn: Syntax, rest: string, i: nat, ms: Marks)
    requires syn.sep != "" && i + |syn.sep| <= |rest|
    requires Clean(TrimCallOpen(syn, rest[..i]), ms) && Clean(rest[i + |syn.sep|..], ms)
    ensures FragmentClean(Around(syn, rest, i), ms)
  {
    FragmentFromClean(TrimCallOpen(syn, rest[..i]), rest[i + |syn.sep|..], FirstTerminator(syn, rest[i + |syn.sep|..]), ms);
  }

  lemma NextIsClean(syn: Syntax, rest: string, ms: Marks)
    requires Lawful(syn) && CutsClear(syn, ms) && Clean(rest, ms)
    ensures FragmentClean(Next(syn, rest), ms)
  {
    IndexIs(rest, syn.sep);
    match Index(rest, syn.sep)
    case None =>
    case Some(i) =>
      AroundSepClean(syn, rest, i, ms);
      AroundClean(syn, rest, i, ms);
  }

  ghost predicate ReadsClean(read: Reader, ms: Marks) {
    forall s: string :: Clean(s, ms) ==> FragmentClean(read(s), ms)
  }

  lemma ScanOfClosed<A>(read: Reader, parse: BodyParser<A>, rest: string, n: nat) returns (m: nat)
    requires Shrinks(read) && read(rest).Closed?
    ensures Scan(read, parse, rest, n).text == read(rest).kept + Scan(read, parse, read(rest).rest, m).text
  {
    m := n + if parse(read(rest).body, n).Some? then 1 else 0;
  }

  lemma {:induction false} ScanIsClean<A>(read: Reader, parse: BodyParser<A>, rest: string, n: nat, ms: Marks)
    requires Shrinks(read) && ReadsClean(read, ms) && Clean(rest, ms)
    ensures Clean(Scan(read, parse, rest, n).text, ms)
    decreases |rest|
  {
    assert FragmentClean(read(rest), ms);
    if read(rest).Closed? {
      var m := ScanOfClosed(read, parse, rest, n);
      ScanIsClean(read, parse, read(rest).rest, m, ms);
      ConcatClean(read(rest).kept, Scan(read, parse, read(rest).rest, m).text, ms);
    }
  }

  lemma ReaderReadsClean(syn: Syntax, ms: Marks)
    requires Lawful(syn) && CutsClear(syn, ms)
    ensures ReadsClean(ReaderOf(syn), ms)
  {
    forall s: string | Clean(s, ms) ensures FragmentClean(ReaderOf(syn)(s), ms) {
      NextIsClean(syn, s, ms);
    }
  }

  lemma {:induction false} NotIn(s: string, ts: seq<string>, t: string)
    requires !AnyIn(s, ts) && t in ts
    ensures !Contains(s, t)
  {
    if ts[0] == t {
      IndexIs(s, t);
    } else {
      NotIn(s, ts[1..], t);
    }
  }

  /** A clean text that holds no sentinel has none but stray angles. */
  lemma OnlyStraysIn(syn: Syntax, s: string, stray: char -> bool)
    requires !AnyIn(s, syn.Sentinels()) && Clean(s, Marks(SentinelSet(syn), stray))
    ensures Clean(s, Marks({}, stray))
  {
    forall i: nat | i < |s| && s[i] == '<' ensures Strays(s, Marks({}, stray), i) {
      assert Marked(s, Marks(SentinelSet(syn), stray), i);
      if t :| t in SentinelSet(syn) && HasAt(s, t, i) {
        NotIn(s, syn.Sentinels(), t);
      }
    }
  }

  lemma StraysTrimmed(s: string, space: char -> bool, stray: char -> bool)
    requires Clean(s, Marks({}, stray)) && forall c :: stray(c) ==> !space(c)
    ensures Clean(Text.Trim(s, space), Marks({}, stray))
  {
    var left := Text.TrimLeft(s, space);
    var r := Text.TrimRight(left, space);
    SuffixClean(s, Marks({}, stray), |s| - |left|);
    forall i: nat | i < |r| && r[i] == '<' ensures Strays(r, Marks({}, stray), i) {
      assert left[i] == '<' && Marked(left, Marks({}, stray), i);
      assert !Opens(left, Marks({}, stray), i);
    }
  }

  /** What the text shown to the user holds, whatever mix of whole, unterminated, malformed and stray
      fragments the answer does: when every `<` of the answer begins a sentinel or has a harmless
      character behind it, every `<` shown has one. */
  lemma OnlyStraysSurvive<A>(syn: Syntax, space: char -> bool, parse: BodyParser<A>, content: string, stray: char -> bool)
    requires Lawful(syn) && Harmless(syn, stray) && (forall c :: stray(c) ==> !space(c))
    requires Clean(content, Marks(SentinelSet(syn), stray))
    ensures Clean(Parsed(syn, space, parse, content).text, Marks({}, stray))
  {
    var ms := Marks(SentinelSet(syn), stray);
    if Index(content, syn.sep).Some? {
      var clean := Scan(ReaderOf(syn), parse, content, 0).text;
      ReaderReadsClean(syn, ms);
      ScanIsClean(ReaderOf(syn), parse, content, 0, ms);
      AllStripped(syn, stray, clean);
      StraysTrimmed(StripAll(syn, clean), space, stray);
    } else if AnyIn(content, syn.Sentinels()) {
      AllStripped(syn, stray, content);
      StraysTrimmed(StripAll(syn, content), space, stray);
    } else {
      OnlyStraysIn(syn, content, stray);
    }
  }

  /** So it holds no sentinel. */
  lemma NoSentinelShown<A>(syn: Syntax, space: char -> bool, parse: BodyParser<A>, content: string, stray: char -> bool, t: string)
    requires Lawful(syn) && Harmless(syn, stray) && (forall c :: stray(c) ==> !space(c))
    requires Clean(content, Marks(SentinelSet(syn), stray)) && t in SentinelSet(syn)
    ensures !Contains(Parsed(syn, space, parse, content).text, t)
  {
    OnlyStraysSurvive(syn, space, parse, content, stray);
    HarmlessAt(syn, stray, t);
    NoneAmongStrays(Parsed(syn, space, parse, content).text, stray, t);
  }

  lemma HarmlessAt(syn: Syntax, stray: char -> bool, t: string)
    requires Lawful(syn) && Harmless(syn, stray) && t in SentinelSet(syn)
    ensures IsSentinel(t) && !stray(t[1])
  {
  }

  lemma TwoAt(s: string, t: string, i: nat)
    requires |t| > 1
    ensures HasAt(s, t, i) ==> i + 1 < |s| && s[i] == t[0] && s[i + 1] == t[1]
  {
    if HasAt(s, t, i) {
      CharsAt(s, t, i);
    }
  }

  lemma NoneAmongStrays(text: string, stray: char -> bool, t: string)
    requires Clean(text, Marks({}, stray)) && IsSentinel(t) && !stray(t[1])
    ensures !Contains(text, t)
  {
    forall i: nat ensures !HasAt(text, t, i) {
      TwoAt(text, t, i);
      if i < |text| && text[i] == '<' {
        assert Marked(text, Marks({}, stray), i);
      }
    }
  }

  /** When every `<` of the answer begins a sentinel, the text shown holds no `<` at all. */
  lemma NoSentinelSurvives<A>(syn: Syntax, space: char -> bool, parse: BodyParser<A>, content: string)
    requires Lawful(syn) && Clean(content, Marks(SentinelSet(syn), _ => false))
    ensures '<' !in Parsed(syn, space, parse, content).text
  {
    OnlyStraysSurvive(syn, space, parse, content, _ => false);
    var text := Parsed(syn, space, parse, content).text;
    forall i | 0 <= i < |text| ensures text[i] != '<' {
      assert text[i] == '<' ==> Marked(text, Marks({}, _ => false), i);
    }
  }

  /** For the native sentinels that is any character behind the `<` but an angle, a bar, a blank and the
      first letter of the word before the separator. */
  lemma NativeHarmless(stray: char -> bool)
    requires forall c :: stray(c) ==> c != '<' && c != '|' && c != 'f' && !Blank(c)
    ensures Lawful(NATIVE) && Harmless(NATIVE, stray)
  {
    NativeIsLawful();
    assert NATIVE.prefix[0] == 'f';
    assert forall t :: t in SentinelSet(NATIVE) ==> t[1] == '|';
  }
}
